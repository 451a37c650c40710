/** The user identifier format of `src/models/users.model.ts`, and the shared
    shape of prefixed identifiers: a fixed prefix followed by exactly five ASCII
    letters or digits (the regular expression `^<prefix>[a-zA-Z0-9]{5}$`). */
module UsersModel {

  /** Number of characters after the prefix in every identifier. */
  const IdSuffixLength: nat := 5

  const UserIdPrefix: string := "usr_"

  /** The character class `[a-zA-Z0-9]`. */
  predicate IsAlphaNumeric(c: char) {
    || 'a' <= c <= 'z'
    || 'A' <= c <= 'Z'
    || '0' <= c <= '9'
  }

  /** `s` matches `^<prefix>[a-zA-Z0-9]{5}$` anchored at both ends. */
  predicate HasIdFormat(prefix: string, s: string) {
    && |s| == |prefix| + IdSuffixLength
    && s[..|prefix|] == prefix
    && forall i :: |prefix| <= i < |s| ==> IsAlphaNumeric(s[i])
  }

  /** The `UserIdSchema` rule: `usr_` then five ASCII alphanumerics. */
  predicate IsUserId(s: string) {
    HasIdFormat(UserIdPrefix, s)
  }

  /** Left-to-right matcher for a prefixed identifier, as a regular-expression
      engine runs it: the length, then the prefix character by character, then
      the character class over the suffix. */
  method MatchIdFormat(prefix: string, s: string) returns (ok: bool)
    ensures ok <==> HasIdFormat(prefix, s)
  {
    if |s| != |prefix| + IdSuffixLength {
      return false;
    }
    var i := 0;
    while i < |prefix|
      invariant 0 <= i <= |prefix|
      invariant s[..i] == prefix[..i]
    {
      if s[i] != prefix[i] {
        return false;
      }
      i := i + 1;
    }
    assert s[..|prefix|] == prefix;
    while i < |s|
      invariant |prefix| <= i <= |s|
      invariant forall j :: |prefix| <= j < i ==> IsAlphaNumeric(s[j])
    {
      if !IsAlphaNumeric(s[i]) {
        return false;
      }
      i := i + 1;
    }
    return true;
  }

  /** Every valid user identifier is nine characters long. */
  lemma UserIdLength(s: string)
    requires IsUserId(s)
    ensures |s| == 9
  {
  }

  /** The identifiers quoted in the schema message and in the controller tests
      are accepted; near misses are rejected. */
  lemma UserIdExamples()
    ensures IsUserId("usr_abcde") && IsUserId("usr_12345")
    ensures !IsUserId("usr_abcd") && !IsUserId("usr_abcdef")
    ensures !IsUserId("usr_abc-e") && !IsUserId("USR_abcde")
  {
    assert !IsAlphaNumeric("usr_abc-e"[7]);
    assert "USR_abcde"[..4] != UserIdPrefix by {
      assert "USR_abcde"[0] != UserIdPrefix[0];
    }
  }
}
