/** The reserved-username rule: `me`, in any letter case, may not be registered. */
module UserValidators {
  import opened Base
  import Text

  const ReservedUsername := "me"

  /** The error text, which embeds the rejected value. */
  function RejectionMessage(value: string): (m: string)
    ensures |m| > 4 + |value|
    ensures m[..4] == "Имя " && m[4..4 + |value|] == value
  {
    "Имя " + value + " запрещено для регистрации!"
  }

  /** `validate_username_not_me`: rejects a value whose lower-case form is exactly `me`. */
  function ValidateUsernameNotMe(value: string): (r: Outcome<string>)
    ensures r.Fail? <==> value in {"me", "Me", "mE", "ME"}
    ensures r.Fail? ==> r.error == RejectionMessage(value)
  {
    LowerIsMe(value);
    if Text.LowerString(value) == ReservedUsername then Fail(RejectionMessage(value)) else Pass
  }

  /** Only `m`/`M` lower to `m`, and only `e`/`E` to `e`, so four spellings lower to `me`. */
  lemma LowerIsMe(value: string)
    ensures Text.LowerString(value) == "me" <==> value in {"me", "Me", "mE", "ME"}
  {
    if Text.LowerString(value) == "me" {
      assert |value| == 2;
      assert Text.Lower(value[0]) == 'm' && Text.Lower(value[1]) == 'e';
      assert value[0] in {'m', 'M'} && value[1] in {'e', 'E'};
      assert value == [value[0], value[1]];
    }
  }

  /** No trimming and no prefix test: a leading space or an extra letter passes. */
  lemma NearMissesPass()
    ensures ValidateUsernameNotMe(" me") == Pass
    ensures ValidateUsernameNotMe("mee") == Pass
    ensures ValidateUsernameNotMe("ME") == Fail("Имя ME запрещено для регистрации!")
  {
    assert "ME" in {"me", "Me", "mE", "ME"};
    assert RejectionMessage("ME") == "Имя ME запрещено для регистрации!";
  }
}
