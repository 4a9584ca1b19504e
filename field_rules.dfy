/** Character-level rules the sign-up and sign-in forms share: JavaScript's
    whitespace class (used by both `\s` and `String.prototype.trim`), `trim`
    itself, and the unanchored email test `/\S+@\S+\.\S+/.test(email)`. */
module FieldRules {

  import opened Common

  /** The characters JavaScript counts as white space or line terminators:
      the class `\s` matches exactly these, and `trim` removes exactly these. */
  predicate IsSpace(c: char) {
    c == '\t' || c == '\n' || c == '\U{000B}' || c == '\U{000C}' || c == '\r' || c == ' '
    || c == '\U{00A0}' || c == '\U{1680}' || ('\U{2000}' <= c <= '\U{200A}')
    || c == '\U{2028}' || c == '\U{2029}' || c == '\U{202F}' || c == '\U{205F}'
    || c == '\U{3000}' || c == '\U{FEFF}'
  }

  predicate IsBlank(s: string) {
    forall i :: 0 <= i < |s| ==> IsSpace(s[i])
  }

  /** No white space among `s[lo..hi]`. */
  predicate NoSpaceIn(s: string, lo: int, hi: int)
    requires 0 <= lo <= hi <= |s|
  {
    forall i :: lo <= i < hi ==> !IsSpace(s[i])
  }

  /** `s.trimStart()`: the suffix left after dropping leading white space. */
  function TrimStart(s: string): (r: string)
    ensures |r| <= |s| && r == s[|s| - |r|..]
    ensures IsBlank(s[..|s| - |r|])
    ensures r == [] || !IsSpace(r[0])
    decreases |s|
  {
    if s != [] && IsSpace(s[0]) then
      var t := s[1..];
      var r := TrimStart(t);
      assert t[|t| - |r|..] == s[|s| - |r|..];
      var blank := t[..|t| - |r|];
      assert s[..|s| - |r|] == [s[0]] + blank;
      assert forall i :: 0 <= i < |blank| ==> ([s[0]] + blank)[i + 1] == blank[i];
      r
    else s
  }

  /** `s.trimEnd()`: the prefix left after dropping trailing white space. */
  function TrimEnd(s: string): (r: string)
    ensures |r| <= |s| && r == s[..|r|]
    ensures IsBlank(s[|r|..])
    ensures r == [] || !IsSpace(r[|r| - 1])
    decreases |s|
  {
    if s != [] && IsSpace(s[|s| - 1]) then
      var t := s[..|s| - 1];
      var r := TrimEnd(t);
      assert t[..|r|] == s[..|r|];
      assert forall i :: 0 <= i < |s| - |r| ==> s[|r|..][i] == if i < |t| - |r| then t[|r|..][i] else s[|s| - 1];
      r
    else s
  }

  /** Text that does not start with white space is left alone by `trimStart`. */
  lemma TrimStartNoSpace(s: string)
    requires s == [] || !IsSpace(s[0])
    ensures TrimStart(s) == s
  {
  }

  /** Leading white space makes no difference to `trimStart`. */
  lemma {:induction false} TrimStartSkipsBlank(ws: string, s: string)
    requires IsBlank(ws)
    ensures TrimStart(ws + s) == TrimStart(s)
    decreases |ws|
  {
    if ws == [] {
      assert ws + s == s;
    } else {
      assert (ws + s)[0] == ws[0] && (ws + s)[1..] == ws[1..] + s;
      TrimStartSkipsBlank(ws[1..], s);
    }
  }

  /** `trimStart` empties a blank string. */
  lemma BlankTrimsToEmpty(s: string)
    requires IsBlank(s)
    ensures TrimStart(s) == []
  {
    TrimStartSkipsBlank(s, []);
    assert s + [] == s;
  }

  /** `s.trim()` */
  function Trim(s: string): string {
    TrimEnd(TrimStart(s))
  }

  /** `!s.trim()` holds exactly when `s` is empty or all white space. */
  lemma TrimEmptyIffBlank(s: string)
    ensures Trim(s) == [] <==> IsBlank(s)
  {
    var t := TrimStart(s);
    var k := |s| - |t|;
    if Trim(s) == [] {
      assert t == [];
      forall i | 0 <= i < |s| ensures IsSpace(s[i]) {
        assert s[i] == s[..k][i];
      }
    }
  }

  /** `s.trim()` is truthy: something other than white space was entered. */
  predicate Filled(s: string)
    ensures Filled(s) <==> !IsBlank(s)
  {
    TrimEmptyIffBlank(s);
    Trim(s) != []
  }

  /** A full match of `\S+@\S+\.\S+` against all of `t`: a non-empty run of
      non-space characters, '@', another such run, '.', and a third run.
      The runs may themselves contain '@' and '.'. */
  ghost predicate FullEmailMatch(t: string) {
    exists at, dot :: 0 < at && at + 1 < dot && dot + 1 < |t| && t[at] == '@' && t[dot] == '.'
      && NoSpaceIn(t, 0, at) && NoSpaceIn(t, at + 1, dot) && NoSpaceIn(t, dot + 1, |t|)
  }

  /** `RegExp.prototype.test` with the unanchored pattern: some substring matches fully. */
  ghost predicate RegexFindsEmail(s: string) {
    exists i, j :: 0 <= i <= j <= |s| && FullEmailMatch(s[i..j])
  }

  /** The shortest match around an '@' at `at` and a '.' at `dot`: one non-space
      character before the '@', non-space characters up to the '.', and one
      non-space character after it. */
  predicate EmailShapeAt(s: string, at: int, dot: int)
    requires 1 <= at && at + 1 < dot && dot + 1 < |s|
  {
    !IsSpace(s[at - 1]) && s[at] == '@' && NoSpaceIn(s, at + 1, dot) && s[dot] == '.' && !IsSpace(s[dot + 1])
  }

  /** The email check as a character predicate. */
  predicate EmailFormatOk(s: string) {
    exists at, dot | 1 <= at < |s| && at + 1 < dot < |s| - 1 :: EmailShapeAt(s, at, dot)
  }

  /** The character predicate accepts exactly the strings the unanchored regex accepts. */
  lemma EmailFormatOkIffRegex(s: string)
    ensures EmailFormatOk(s) <==> RegexFindsEmail(s)
  {
    if EmailFormatOk(s) {
      var at, dot :| 1 <= at < |s| && at + 1 < dot < |s| - 1 && EmailShapeAt(s, at, dot);
      ShortestMatchIsMatch(s, at, dot);
    }
    if RegexFindsEmail(s) {
      var i, j :| 0 <= i <= j <= |s| && FullEmailMatch(s[i..j]);
      MatchHasShortestMatch(s, i, j);
    }
  }

  /** The window from the character before '@' to the character after '.' matches fully. */
  lemma ShortestMatchIsMatch(s: string, at: int, dot: int)
    requires 1 <= at && at + 1 < dot && dot + 1 < |s|
    requires EmailShapeAt(s, at, dot)
    ensures RegexFindsEmail(s)
  {
    var t := s[at - 1..dot + 2];
    var at', dot' := 1, dot - at + 1;
    assert t[0] == s[at - 1] && t[at'] == '@' && t[dot'] == '.' && t[dot' + 1] == s[dot + 1];
    forall k | at' + 1 <= k < dot' ensures !IsSpace(t[k]) {
      assert t[k] == s[at - 1 + k];
    }
    assert NoSpaceIn(t, 0, at') && NoSpaceIn(t, at' + 1, dot') && NoSpaceIn(t, dot' + 1, |t|);
    assert FullEmailMatch(t);
  }

  /** Any full match inside `s` contains a shortest one around the same '@' and '.'. */
  lemma MatchHasShortestMatch(s: string, i: int, j: int)
    requires 0 <= i <= j <= |s| && FullEmailMatch(s[i..j])
    ensures EmailFormatOk(s)
  {
    var t := s[i..j];
    var at', dot' :| 0 < at' && at' + 1 < dot' && dot' + 1 < |t| && t[at'] == '@' && t[dot'] == '.'
      && NoSpaceIn(t, 0, at') && NoSpaceIn(t, at' + 1, dot') && NoSpaceIn(t, dot' + 1, |t|);
    var at, dot := i + at', i + dot';
    assert s[at - 1] == t[at' - 1] && !IsSpace(t[at' - 1]);
    assert s[dot + 1] == t[dot' + 1] && !IsSpace(t[dot' + 1]);
    forall k | at + 1 <= k < dot ensures !IsSpace(s[k]) {
      assert s[k] == t[k - i];
    }
    assert EmailShapeAt(s, at, dot);
  }

  /** Without an '@' there is no match. */
  lemma NoAtNoEmail(s: string)
    requires '@' !in s
    ensures !RegexFindsEmail(s)
  {
    EmailFormatOkIffRegex(s);
  }

  /** The email rule both forms apply: required after trimming, then the pattern. */
  function EmailError(email: string): (e: Option<string>)
    ensures e == None <==> !IsBlank(email) && EmailFormatOk(email)
    ensures e == Some("Email is required") <==> IsBlank(email)
    ensures e == Some("Invalid email format") <==> !IsBlank(email) && !EmailFormatOk(email)
  {
    if !Filled(email) then Some("Email is required")
    else if !EmailFormatOk(email) then Some("Invalid email format")
    else None
  }

  /** The text a message slot shows: nothing when the key is absent. */
  function Shown(message: Option<string>): string {
    message.GetOr("")
  }

  /** `if (errors[name]) setErrors(prev => ({ ...prev, [name]: '' }))` for one
      slot: a shown message is blanked, the key stays, an absent key stays absent. */
  function ClearMessage(message: Option<string>): (r: Option<string>)
    ensures Shown(r) == ""
    ensures r.Some? <==> message.Some?
  {
    if message.Some? && message.value != "" then Some("") else message
  }
}
