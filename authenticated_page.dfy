/** The frame of every signed-in page: the path split into segments and the
    breadcrumb title shown in the top bar. */
module AuthenticatedPage {

  import opened Common

  /** `s.split(sep)` for a one-character separator: the pieces between the
      separators, empty ones included, so there is always at least one. */
  function Split(s: string, sep: char): (pieces: seq<string>)
    ensures |pieces| >= 1
    ensures forall k :: 0 <= k < |pieces| ==> sep !in pieces[k]
    decreases |s|
  {
    if s == [] then [[]]
    else
      var rest := Split(s[1..], sep);
      if s[0] == sep then [[]] + rest
      else [[s[0]] + rest[0]] + rest[1..]
  }

  /** `pieces.join(sep)` */
  function Join(pieces: seq<string>, sep: char): string
    decreases |pieces|
  {
    if pieces == [] then []
    else if |pieces| == 1 then pieces[0]
    else pieces[0] + [sep] + Join(pieces[1..], sep)
  }

  /** Joining the pieces with the separator gives back the string. */
  lemma {:induction false} JoinSplit(s: string, sep: char)
    ensures Join(Split(s, sep), sep) == s
    decreases |s|
  {
    if s != [] {
      var rest := Split(s[1..], sep);
      JoinSplit(s[1..], sep);
      if s[0] == sep {
        assert ([[]] + rest)[1..] == rest;
      } else {
        var pieces := [[s[0]] + rest[0]] + rest[1..];
        if |rest| > 1 {
          assert pieces[1..] == rest[1..];
        }
      }
    }
  }

  /** Text without the separator is a single piece. */
  lemma {:induction false} SplitWithoutSeparator(s: string, sep: char)
    requires sep !in s
    ensures Split(s, sep) == [s]
    decreases |s|
  {
    if s != [] {
      assert s[0] != sep && sep !in s[1..];
      SplitWithoutSeparator(s[1..], sep);
      assert [s[0]] + s[1..] == s;
    }
  }

  /** Splitting at a separator splits the two sides independently. */
  lemma {:induction false} SplitAtSeparator(a: string, b: string, sep: char)
    ensures Split(a + [sep] + b, sep) == Split(a, sep) + Split(b, sep)
    decreases |a|
  {
    var s := a + [sep] + b;
    if a == [] {
      assert s[1..] == b;
    } else {
      assert s[0] == a[0] && s[1..] == a[1..] + [sep] + b;
      SplitAtSeparator(a[1..], b, sep);
    }
  }

  predicate NonEmpty(s: string) {
    s != []
  }

  /** `pathname.split('/').filter(Boolean)` */
  function Segments(path: string): (segs: seq<string>)
    ensures forall k :: 0 <= k < |segs| ==> segs[k] != [] && '/' !in segs[k]
    ensures IsSubsequence(segs, Split(path, '/'))
  {
    FilterIsSubsequence(Split(path, '/'), NonEmpty);
    Filter(Split(path, '/'), NonEmpty)
  }

  /** A slash separates the segments on its two sides and adds none. */
  lemma SegmentsAtSlash(a: string, b: string)
    ensures Segments(a + "/" + b) == Segments(a) + Segments(b)
  {
    SplitAtSeparator(a, b, '/');
    FilterAppend(Split(a, '/'), Split(b, '/'), NonEmpty);
  }

  /** Leading, trailing and repeated slashes make no difference. */
  lemma SlashesIgnored(a: string, b: string)
    ensures Segments("/" + a) == Segments(a)
    ensures Segments(a + "/") == Segments(a)
    ensures Segments(a + "//" + b) == Segments(a + "/" + b)
  {
    SegmentsAtSlash([], a);
    assert [] + "/" + a == "/" + a;
    SegmentsAtSlash(a, []);
    assert a + "/" + [] == a + "/";
    SegmentsAtSlash(a, "/" + b);
    assert a + "/" + ("/" + b) == a + "//" + b;
    SegmentsAtSlash([], b);
    assert [] + "/" + b == "/" + b;
    SegmentsAtSlash(a, b);
  }

  /** The empty path has no segment. */
  lemma NoSegments()
    ensures Segments([]) == []
  {
    assert Split([], '/') == [[]];
  }

  /** A non-empty name without '/' is one segment. */
  lemma OneSegment(name: string)
    requires name != [] && '/' !in name
    ensures Segments(name) == [name]
  {
    SplitWithoutSeparator(name, '/');
  }

  /** `c.toUpperCase()` on ASCII letters; other characters are kept. */
  function Upper(c: char): (u: char)
    ensures 'a' <= c <= 'z' ==> 'A' <= u <= 'Z' && u as int == c as int - 32
    ensures !('a' <= c <= 'z') ==> u == c
  {
    if 'a' <= c <= 'z' then (c as int - 32) as char else c
  }

  /** `word.charAt(0).toUpperCase() + word.slice(1)`; the empty word stays empty. */
  function Capitalize(word: string): string {
    if word == [] then [] else [Upper(word[0])] + word[1..]
  }

  function CapitalizeAll(words: seq<string>): (r: seq<string>)
    ensures |r| == |words|
    ensures forall k :: 0 <= k < |words| ==> r[k] == Capitalize(words[k])
  {
    seq(|words|, k requires 0 <= k < |words| => Capitalize(words[k]))
  }

  /** `getTitle`: split on '-', capitalise each part, join with spaces. */
  function Title(route: string): string {
    Join(CapitalizeAll(Split(route, '-')), ' ')
  }

  /** Whether the character at `i` starts a part: it is the first one, or it
      follows a '-'. */
  predicate StartsPart(route: string, i: int)
    requires 0 <= i < |route|
  {
    i == 0 || route[i - 1] == '-'
  }

  /** The title's character at `i`, with `atStart` saying whether the first
      character begins a part. */
  function TitleChar(route: string, i: int, atStart: bool): char
    requires 0 <= i < |route|
  {
    if route[i] == '-' then ' '
    else if (i == 0 && atStart) || (i > 0 && route[i - 1] == '-') then Upper(route[i])
    else route[i]
  }

  /** Dropping the first character: whether the next one begins a part is
      whether the dropped one was a '-'. */
  lemma TitleCharShift(route: string, atStart: bool)
    requires route != []
    ensures forall i :: 1 <= i < |route| ==> TitleChar(route[1..], i - 1, route[0] == '-') == TitleChar(route, i, atStart)
  {
    forall i | 1 <= i < |route|
      ensures TitleChar(route[1..], i - 1, route[0] == '-') == TitleChar(route, i, atStart)
    {
      assert route[1..][i - 1] == route[i];
      if i > 1 {
        assert route[1..][i - 2] == route[i - 1];
      }
    }
  }

  /** The title built character by character. */
  function TitleFrom(route: string, atStart: bool): (t: string)
    ensures |t| == |route|
    ensures forall i :: 0 <= i < |route| ==> t[i] == TitleChar(route, i, atStart)
    decreases |route|
  {
    if route == [] then []
    else
      TitleCharShift(route, atStart);
      [TitleChar(route, 0, atStart)] + TitleFrom(route[1..], route[0] == '-')
  }

  /** The parts joined with the first one left as it is: the reading of a
      part that continues a word already begun. */
  function Continued(parts: seq<string>): string
    requires parts != []
  {
    Join([parts[0]] + CapitalizeAll(parts[1..]), ' ')
  }

  /** A leading '-' ends an empty first part, which shows as a lone space. */
  lemma TitleAfterDash(route: string)
    requires route != [] && route[0] == '-'
    ensures Title(route) == " " + Title(route[1..])
    ensures Continued(Split(route, '-')) == " " + Title(route[1..])
  {
    var rest := Split(route[1..], '-');
    var caps := CapitalizeAll(rest);
    assert Split(route, '-') == [[]] + rest;
    assert CapitalizeAll(Split(route, '-')) == [[]] + caps;
    assert Split(route, '-')[1..] == rest;
    JoinEmptyFirst(caps);
  }

  /** An empty first piece contributes only the separator. */
  lemma JoinEmptyFirst(words: seq<string>)
    requires words != []
    ensures Join([[]] + words, ' ') == " " + Join(words, ' ')
  {
    assert ([[]] + words)[1..] == words;
  }

  /** Any other first character joins the first part. */
  lemma TitleAfterLetter(route: string)
    requires route != [] && route[0] != '-'
    ensures Title(route) == [Upper(route[0])] + Continued(Split(route[1..], '-'))
    ensures Continued(Split(route, '-')) == [route[0]] + Continued(Split(route[1..], '-'))
  {
    var c := route[0];
    var rest := Split(route[1..], '-');
    var tail := CapitalizeAll(rest[1..]);
    assert Split(route, '-') == [[c] + rest[0]] + rest[1..];
    assert Split(route, '-')[1..] == rest[1..];
    assert CapitalizeAll(Split(route, '-')) == [[Upper(c)] + rest[0]] + tail;
    JoinFirst([Upper(c)], rest[0], tail);
    JoinFirst([c], rest[0], tail);
  }

  /** Both readings agree: with the first part capitalised, and with the first
      part continuing a word already begun. */
  lemma {:induction false} TitleMatchesCharacters(route: string)
    ensures Title(route) == TitleFrom(route, true)
    ensures Continued(Split(route, '-')) == TitleFrom(route, false)
    decreases |route|
  {
    if route != [] {
      TitleMatchesCharacters(route[1..]);
      if route[0] == '-' {
        TitleAfterDash(route);
      } else {
        TitleAfterLetter(route);
      }
    }
  }

  /** A prefix of the first piece comes out in front. */
  lemma JoinFirst(x: string, y: string, rest: seq<string>)
    ensures Join([x + y] + rest, ' ') == x + Join([y] + rest, ' ')
  {
    assert ([x + y] + rest)[1..] == rest;
    assert ([y] + rest)[1..] == rest;
  }

  /** `getTitle` in words: each '-' becomes a space, the first character of
      every part is upper-cased, and everything else is kept; the length stays. */
  lemma TitleCharacters(route: string)
    ensures |Title(route)| == |route|
    ensures forall i :: 0 <= i < |route| ==>
      (Title(route)[i] == if route[i] == '-' then ' ' else if StartsPart(route, i) then Upper(route[i]) else route[i])
  {
    TitleMatchesCharacters(route);
  }

  /** `getBreadcrumbTitle`, with `None` where `getTitle(undefined)` throws
      because the path has no segment. */
  function Breadcrumb(path: string): (title: Option<string>)
    ensures title.None? <==> Segments(path) == []
  {
    var segs := Segments(path);
    if segs == [] then None
    else if |segs| > 2 && segs[2] == "details" then Some(Title(segs[0]) + " > " + segs[1])
    else Some(Title(segs[0]))
  }

  /** Three named segments after a leading slash come first, in order. */
  lemma ThreeSegments(a: string, b: string, c: string, more: string)
    requires a != [] && '/' !in a && b != [] && '/' !in b && c != [] && '/' !in c
    ensures Segments("/" + a + "/" + b + "/" + c + "/" + more) == [a, b, c] + Segments(more)
  {
    var z := c + "/" + more;
    var y := b + "/" + z;
    var x := a + "/" + y;
    RegroupPath(a, b, c, more);
    SegmentsAtSlash([], x);
    NoSegments();
    SegmentsAtSlash(a, y);
    OneSegment(a);
    assert Segments(x) == [a] + Segments(y);
    SegmentsAtSlash(b, z);
    OneSegment(b);
    assert Segments(y) == [b] + Segments(z);
    SegmentsAtSlash(c, more);
    OneSegment(c);
    assert Segments(z) == [c] + Segments(more);
    PrependThree(a, b, c, Segments(more));
  }

  lemma RegroupPath(a: string, b: string, c: string, more: string)
    ensures "/" + a + "/" + b + "/" + c + "/" + more == [] + "/" + (a + "/" + (b + "/" + (c + "/" + more)))
  {
  }

  lemma PrependThree(a: string, b: string, c: string, rest: seq<string>)
    ensures [a] + ([b] + ([c] + rest)) == [a, b, c] + rest
  {
  }

  /** A details page shows the section's title and the item segment verbatim. */
  lemma DetailsBreadcrumb(section: string, item: string, more: string)
    requires section != [] && '/' !in section && item != [] && '/' !in item
    ensures Breadcrumb("/" + section + "/" + item + "/details/" + more) == Some(Title(section) + " > " + item)
  {
    var d := "details";
    assert "/" + section + "/" + item + "/details/" + more == "/" + section + "/" + item + "/" + d + "/" + more;
    ThreeSegments(section, item, d, more);
  }

  /** Any other page shows only the section's title, whatever follows it. */
  lemma SectionBreadcrumb(section: string, rest: string)
    requires section != [] && '/' !in section
    requires |Segments(rest)| < 2 || Segments(rest)[1] != "details"
    ensures Breadcrumb("/" + section + "/" + rest) == Some(Title(section))
  {
    SlashesIgnored(section + "/" + rest, []);
    SegmentsAtSlash([], section + "/" + rest);
    assert [] + "/" + (section + "/" + rest) == "/" + section + "/" + rest;
    SegmentsAtSlash(section, rest);
    OneSegment(section);
  }
}
