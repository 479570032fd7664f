// Credential identifiers: which strings are ids, and the environment variable each one names
// (src/config/credential.rs). A char stands for one byte.

module CredentialId {
  import opened Prelude

  const MAX_LEN: nat := 64
  const ENV_PREFIX := "GCIT_CREDENTIAL_"

  datatype IdError = Empty | TooLong(len: nat) | InvalidChar(c: char) | LeadingHyphen | PathTraversal

  predicate TokenChar(c: char) {
    'a' <= c <= 'z' || 'A' <= c <= 'Z' || '0' <= c <= '9' || c == '_' || c == '-'
  }

  predicate HasDots(s: string) {
    exists i :: 0 <= i < |s| - 1 && s[i] == '.' && s[i + 1] == '.'
  }

  function FirstBad(s: string): (r: Option<char>)
    ensures r.None? <==> forall i :: 0 <= i < |s| ==> TokenChar(s[i])
  {
    if s == "" then None else if !TokenChar(s[0]) then Some(s[0]) else FirstBad(s[1..])
  }

  /** The checks in their order; None accepts. */
  function ValidateIdStr(s: string): Option<IdError> {
    if s == "" then Some(Empty)
    else if |s| > MAX_LEN then Some(TooLong(|s|))
    else if HasDots(s) || '/' in s || '\\' in s || '~' in s || '\0' in s then Some(PathTraversal)
    else if s[0] == '-' then Some(LeadingHyphen)
    else
      match FirstBad(s)
      case Some(c) => Some(InvalidChar(c))
      case None => None
  }

  /** Letters, digits, underscore and hyphen, by ASCII code. */
  predicate IsToken(code: int) {
    48 <= code <= 57 || 65 <= code <= 90 || 97 <= code <= 122 || code == 45 || code == 95
  }

  predicate ValidId(s: string) {
    0 < |s| <= 64 && s[0] != '-' && forall i :: 0 <= i < |s| ==> IsToken(s[i] as int)
  }

  /** An id is accepted exactly when it is short, starts with no hyphen and uses token characters; the path checks shut out nothing more. */
  lemma AcceptedIsValid(s: string)
    ensures ValidateIdStr(s).None? <==> ValidId(s)
  {
    assert forall i :: 0 <= i < |s| ==> (TokenChar(s[i]) <==> IsToken(s[i] as int));
  }

  /** Something a path could be built from: a separator, a tilde, a NUL or two dots in a row. */
  ghost predicate LooksLikePath(s: string) {
    || (exists i :: 0 <= i < |s| && s[i] in {'/', '\\', '~', '\0'})
    || (exists i :: 0 < i < |s| && s[i - 1] == '.' && s[i] == '.')
  }

  /** Why an id is refused: the first of the rules it breaks. */
  ghost predicate Refusal(s: string, error: IdError) {
    match error
    case Empty => |s| == 0
    case TooLong(len) => |s| > 64 && len == |s|
    case PathTraversal => |s| <= 64 && LooksLikePath(s)
    case LeadingHyphen => 0 < |s| <= 64 && !LooksLikePath(s) && s[0] == '-'
    case InvalidChar(c) =>
      && 0 < |s| <= 64 && !LooksLikePath(s) && s[0] != '-'
      && exists i :: 0 <= i < |s| && s[i] == c && !IsToken(c as int) && forall j :: 0 <= j < i ==> IsToken(s[j] as int)
  }

  lemma {:induction false} FirstBadIs(s: string) returns (i: nat)
    requires FirstBad(s).Some?
    ensures i < |s| && FirstBad(s) == Some(s[i]) && !TokenChar(s[i]) && forall j :: 0 <= j < i ==> TokenChar(s[j])
  {
    if !TokenChar(s[0]) {
      i := 0;
    } else {
      var k := FirstBadIs(s[1..]);
      i := k + 1;
      assert forall j :: 1 <= j < i ==> s[j] == s[1..][j - 1];
    }
  }

  lemma PathIff(s: string)
    ensures (HasDots(s) || '/' in s || '\\' in s || '~' in s || '\0' in s) <==> LooksLikePath(s)
  {
    if HasDots(s) {
      var i :| 0 <= i < |s| - 1 && s[i] == '.' && s[i + 1] == '.';
      var k := i + 1;
      assert s[k - 1] == '.' && s[k] == '.';
    }
    if k :| 0 < k < |s| && s[k - 1] == '.' && s[k] == '.' {
      var i := k - 1;
      assert s[i] == '.' && s[i + 1] == '.';
    }
  }

  /** An id is refused with exactly that reason. */
  lemma RefusalIff(s: string, error: IdError)
    ensures ValidateIdStr(s) == Some(error) <==> Refusal(s, error)
  {
    PathIff(s);
    if FirstBad(s).Some? {
      var i := FirstBadIs(s);
    }
  }

  function Upper(c: char): char {
    if 'a' <= c <= 'z' then c - 32 as char else c
  }

  function EnvChar(c: char): char {
    if Upper(c) == '-' then '_' else Upper(c)
  }

  function IdToEnv(id: string): string {
    ENV_PREFIX + Map(EnvChar, id)
  }

  /** The two are one letter in two cases. */
  predicate OtherCase(a: char, b: char) {
    || ('A' <= a <= 'Z' && b as int == a as int + 32)
    || ('A' <= b <= 'Z' && a as int == b as int + 32)
  }

  /** Chars that a variable name cannot tell apart. */
  predicate Alike(a: char, b: char) {
    a == b || OtherCase(a, b) || (a in {'-', '_'} && b in {'-', '_'})
  }

  lemma EnvCharIff(a: char, b: char)
    ensures EnvChar(a) == EnvChar(b) <==> Alike(a, b)
  {
  }

  /** Two ids name the same variable exactly when they differ at most in letter case and in '-' against '_'. */
  lemma SameVariableIff(a: string, b: string)
    ensures IdToEnv(a) == IdToEnv(b) <==> |a| == |b| && forall i :: 0 <= i < |a| ==> Alike(a[i], b[i])
  {
    var x, y := Map(EnvChar, a), Map(EnvChar, b);
    assert IdToEnv(a)[|ENV_PREFIX|..] == x && IdToEnv(b)[|ENV_PREFIX|..] == y;
    forall i | 0 <= i < |a| && |a| == |b|
      ensures x[i] == y[i] <==> Alike(a[i], b[i])
    {
      EnvCharIff(a[i], b[i]);
    }
  }

  /** The variable of an accepted id: the prefix, then each char upper-cased, or `_` for `-`; a legal name throughout. */
  lemma VariableIs(id: string)
    requires ValidateIdStr(id).None?
    ensures |IdToEnv(id)| == 16 + |id| && IdToEnv(id)[..16] == "GCIT_CREDENTIAL_"
    ensures forall i :: 0 <= i < |id| ==>
              var c, v := id[i], IdToEnv(id)[16 + i];
              && ('A' <= v <= 'Z' || '0' <= v <= '9' || v == '_')
              && (if 'a' <= c <= 'z' then v as int == c as int - 32 else if c == '-' then v == '_' else v == c)
  {
    AcceptedIsValid(id);
    assert IdToEnv(id)[16..] == Map(EnvChar, id);
    forall i | 0 <= i < |id|
      ensures IdToEnv(id)[16 + i] == EnvChar(id[i])
    {
      assert IdToEnv(id)[16 + i] == IdToEnv(id)[16..][i];
    }
  }
}
