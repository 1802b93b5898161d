/**
 * Rows of the junction tables: a favourite (user, recipe), a cart entry
 * (user, recipe), a subscription (subscriber, publisher) and a recipe's tag
 * (recipe, tag). Each table forbids two rows with the same pair.
 */
module Relations {
  import opened QuerySets

  datatype Link = Link(source: int, target: int)

  /** The subscription table's check constraint: nobody follows themselves. */
  predicate NoSelfLinks(rows: seq<Link>) {
    forall l :: l in rows ==> l.source != l.target
  }

  /** Deleting the row(s) holding `link`. */
  function RemoveLink(rows: seq<Link>, link: Link): (r: seq<Link>)
    ensures ElementSet(r) == ElementSet(rows) - {link}
    ensures multiset(r) <= multiset(rows)
  {
    Where(rows, (l: Link) => l != link)
  }

  /** Appending a pair that is absent keeps the pairs distinct. */
  lemma AppendNoRepeats(rows: seq<Link>, link: Link)
    requires NoRepeats(rows) && link !in rows
    ensures NoRepeats(rows + [link])
  {
    var r := rows + [link];
    forall i, j | 0 <= i < j < |r| ensures r[i] != r[j] {
      if j == |rows| { assert r[i] == rows[i]; assert rows[i] in rows; }
    }
  }

  /** Removing a pair that was just appended gives back the table as it was. */
  lemma {:induction false} RemoveAppended(rows: seq<Link>, link: Link)
    requires link !in rows
    ensures RemoveLink(rows + [link], link) == rows
  {
    var keep := (l: Link) => l != link;
    if rows == [] {
      assert Where([link], keep) == [] + Where([], keep);
    } else {
      var head := rows[0];
      assert head in rows;
      RemoveAppended(rows[1..], link);
      assert (rows + [link])[1..] == rows[1..] + [link];
      assert Where(rows + [link], keep) == [head] + Where(rows[1..] + [link], keep);
      assert rows == [head] + rows[1..];
    }
  }

  /** In a table of distinct pairs, removing a present pair removes exactly one row. */
  lemma {:induction false} RemoveExactlyOne(rows: seq<Link>, link: Link)
    requires NoRepeats(rows) && link in rows
    ensures multiset(RemoveLink(rows, link)) + multiset{link} == multiset(rows)
    ensures |RemoveLink(rows, link)| + 1 == |rows|
  {
    var keep := (l: Link) => l != link;
    var head := rows[0];
    var rest := rows[1..];
    assert rows == [head] + rest;
    assert NoRepeats(rest) by {
      forall i, j | 0 <= i < j < |rest| ensures rest[i] != rest[j] {
        assert rest[i] == rows[i + 1] && rest[j] == rows[j + 1];
      }
    }
    if head == link {
      assert link !in rest;
      assert Where(rows, keep) == Where(rest, keep);
      assert Where(rest, keep) == rest by { RemoveAbsent(rest, link); }
    } else {
      assert link in rest;
      RemoveExactlyOne(rest, link);
      assert Where(rows, keep) == [head] + Where(rest, keep);
    }
  }

  /** Removing an absent pair changes nothing. */
  lemma {:induction false} RemoveAbsent(rows: seq<Link>, link: Link)
    requires link !in rows
    ensures RemoveLink(rows, link) == rows
  {
    if rows != [] {
      var head := rows[0];
      assert head in rows;
      RemoveAbsent(rows[1..], link);
      assert RemoveLink(rows, link) == [head] + RemoveLink(rows[1..], link);
      assert rows == [head] + rows[1..];
    }
  }
}
