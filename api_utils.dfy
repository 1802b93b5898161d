/**
 * The generic relation toggle: `create_request_obj` adds a (user, target)
 * pair with `get_or_create` and answers 201 or 400; `delete_request_obj`
 * looks the pair up and deletes it, answering 204 or 400. Each answer is
 * a status code and a body.
 */
module ApiUtils {
  import opened QuerySets
  import opened Relations
  import opened Store
  import opened Settings

  /** A response body: an `errors` or `detail` message, a serialised object, or a server error page. */
  datatype Body = Errors(message: string) | Detail(message: string) | Serialized(obj: int) | NotFoundPage | ServerErrorPage

  datatype Response = Response(status: int, body: Body)

  const HttpCreated := 201
  const HttpNoContent := 204
  const HttpBadRequest := 400
  const HttpNotFound := 404
  const HttpServerError := 500

  /**
   * `create_request_obj`: the new state and the answer. A pair already
   * stored answers 400 with the repeat message; a new pair answers 201 with
   * the serialised object; a row the database refuses (a missing key, a
   * self-subscription) surfaces as a server error.
   */
  function CreateRequest(s: DbState, kind: RelationKind, link: Link, obj: int, messages: Messages): (r: (DbState, Response))
    ensures r.1.status in {HttpCreated, HttpBadRequest, HttpServerError}
    ensures r.1.status != HttpCreated ==> r.0 == s
  {
    var (t, f) := GetOrCreateRow(s, kind, link);
    match f
    case Fetched => (t, Response(HttpBadRequest, Errors(messages.postFailureRepeating)))
    case Created => (t, Response(HttpCreated, Serialized(obj)))
    case Refused => (t, Response(HttpServerError, ServerErrorPage))
  }

  /** `delete_request_obj`: a stored pair is deleted with 204; a missing one answers 400, not 404. */
  function DeleteRequest(s: DbState, kind: RelationKind, link: Link, messages: Messages): (r: (DbState, Response))
    ensures r.1.status in {HttpNoContent, HttpBadRequest}
    ensures r.1.status == HttpBadRequest ==> r.0 == s
  {
    if link !in s.Rows(kind) then (s, Response(HttpBadRequest, Errors(messages.deleteFailure404)))
    else (DeleteRow(s, kind, link), Response(HttpNoContent, Detail(messages.deleteSuccess)))
  }

  /**
   * Adding keeps the database consistent. It answers 201 exactly when the
   * pair was absent and may be stored, and then exactly that pair is added;
   * a stored pair answers 400 with the repeat message and nothing changes;
   * no other table is touched.
   */
  lemma CreateRequestSound(s: DbState, kind: RelationKind, link: Link, obj: int, messages: Messages)
    requires Consistent(s)
    ensures var (t, r) := CreateRequest(s, kind, link, obj, messages);
      && Consistent(t)
      && (r.status == HttpCreated <==> link !in s.Rows(kind) && Insertable(s, kind, link))
      && (r.status == HttpCreated ==>
            && r.body == Serialized(obj)
            && t.Rows(kind) == s.Rows(kind) + [link]
            && ElementSet(t.Rows(kind)) == ElementSet(s.Rows(kind)) + {link})
      && (r.status == HttpBadRequest <==> link in s.Rows(kind))
      && (r.status == HttpBadRequest ==> r.body == Errors(messages.postFailureRepeating))
      && (r.status != HttpCreated ==> t == s)
      && (forall k :: k != kind ==> t.Rows(k) == s.Rows(k))
      && t == s.WithRows(kind, t.Rows(kind))
  {
    GetOrCreateRowSound(s, kind, link);
  }

  /**
   * Deleting keeps the database consistent. It answers 204 exactly when the
   * pair was stored, and then removes that one row; otherwise it answers 400
   * with the not-found message and nothing changes; no other table is touched.
   */
  lemma DeleteRequestSound(s: DbState, kind: RelationKind, link: Link, messages: Messages)
    requires Consistent(s)
    ensures var (t, r) := DeleteRequest(s, kind, link, messages);
      && Consistent(t)
      && (r.status == HttpNoContent <==> link in s.Rows(kind))
      && (r.status == HttpNoContent ==>
            && r.body == Detail(messages.deleteSuccess)
            && ElementSet(t.Rows(kind)) == ElementSet(s.Rows(kind)) - {link}
            && |t.Rows(kind)| + 1 == |s.Rows(kind)|)
      && (r.status != HttpNoContent ==> r == Response(HttpBadRequest, Errors(messages.deleteFailure404)) && t == s)
      && (forall k :: k != kind ==> t.Rows(k) == s.Rows(k))
  {
    DeleteRowSound(s, kind, link);
  }

  /** Adding a new pair and then deleting it gives back the database as it was. */
  lemma CreateThenDeleteRestores(s: DbState, kind: RelationKind, link: Link, obj: int, messages: Messages)
    requires Consistent(s)
    requires CreateRequest(s, kind, link, obj, messages).1.status == HttpCreated
    ensures var t := CreateRequest(s, kind, link, obj, messages).0;
      DeleteRequest(t, kind, link, messages) == (s, Response(HttpNoContent, Detail(messages.deleteSuccess)))
  {
    CreateRequestSound(s, kind, link, obj, messages);
    var t := CreateRequest(s, kind, link, obj, messages).0;
    RemoveAppended(s.Rows(kind), link);
    assert link in t.Rows(kind);
    assert DeleteRow(t, kind, link) == s.WithRows(kind, s.Rows(kind));
  }

  /** Whatever the first add answered, other than a server error, a second add answers 400 and changes nothing. */
  lemma SecondCreateRefused(s: DbState, kind: RelationKind, link: Link, obj: int, messages: Messages)
    requires Consistent(s)
    requires CreateRequest(s, kind, link, obj, messages).1.status != HttpServerError
    ensures var t := CreateRequest(s, kind, link, obj, messages).0;
      CreateRequest(t, kind, link, obj, messages) == (t, Response(HttpBadRequest, Errors(messages.postFailureRepeating)))
  {
    CreateRequestSound(s, kind, link, obj, messages);
    var t := CreateRequest(s, kind, link, obj, messages).0;
    assert link in t.Rows(kind);
  }

  /** After any delete, a second delete of the same pair answers 400 and changes nothing. */
  lemma SecondDeleteRefused(s: DbState, kind: RelationKind, link: Link, messages: Messages)
    requires Consistent(s)
    ensures var t := DeleteRequest(s, kind, link, messages).0;
      DeleteRequest(t, kind, link, messages) == (t, Response(HttpBadRequest, Errors(messages.deleteFailure404)))
  {
    DeleteRequestSound(s, kind, link, messages);
    var t := DeleteRequest(s, kind, link, messages).0;
    assert link !in ElementSet(t.Rows(kind));
  }

  /** `create_request_obj`, run against the database in place. */
  method CreateRequestObj(db: Database, kind: RelationKind, link: Link, obj: int, messages: Messages) returns (r: Response)
    requires db.Valid()
    modifies db
    ensures db.Valid()
    ensures (db.State(), r) == CreateRequest(old(db.State()), kind, link, obj, messages)
  {
    var f := db.GetOrCreate(kind, link);
    if f == Fetched {
      r := Response(HttpBadRequest, Errors(messages.postFailureRepeating));
    } else if f == Created {
      r := Response(HttpCreated, Serialized(obj));
    } else {
      r := Response(HttpServerError, ServerErrorPage);
    }
  }

  /** `delete_request_obj`, run against the database in place. */
  method DeleteRequestObj(db: Database, kind: RelationKind, link: Link, messages: Messages) returns (r: Response)
    requires db.Valid()
    modifies db
    ensures db.Valid()
    ensures (db.State(), r) == DeleteRequest(old(db.State()), kind, link, messages)
  {
    var found := db.Exists(kind, link);
    if !found {
      return Response(HttpBadRequest, Errors(messages.deleteFailure404));
    }
    db.Delete(kind, link);
    r := Response(HttpNoContent, Detail(messages.deleteSuccess));
  }
}
