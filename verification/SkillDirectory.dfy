/** The repository folder a draft's files live in, derived from an untrusted
    skill id, or a fallback when the id cannot be turned into a safe path. */
module SkillDirectory {
  import opened Registry
  import opened Text

  const MAX_DIRECTORY_DEPTH := 6
  const MAX_DIRECTORY_LENGTH := 180

  predicate SafeChar(c: char) {
    'A' <= c <= 'Z' || 'a' <= c <= 'z' || '0' <= c <= '9' || c == '_' || c == '-'
  }

  predicate Space(c: char) {
    c == ' ' || c == '\t' || c == '\n' || c == '\r' || c == 11 as char || c == 12 as char
  }

  function StripLeft(s: string, drop: char -> bool): string {
    if s != "" && drop(s[0]) then StripLeft(s[1..], drop) else s
  }

  function StripRight(s: string, drop: char -> bool): string {
    if s != "" && drop(s[|s| - 1]) then StripRight(s[..|s| - 1], drop) else s
  }

  function Strip(s: string, drop: char -> bool): string {
    StripRight(StripLeft(s, drop), drop)
  }

  /** Replaces each maximal run of unsafe characters by one dash. */
  function DashUnsafe(s: string, inRun: bool): string {
    if s == "" then ""
    else if SafeChar(s[0]) then [s[0]] + DashUnsafe(s[1..], false)
    else (if inRun then "" else "-") + DashUnsafe(s[1..], true)
  }

  predicate IsDash(c: char) { c == '-' }

  function Cleaned(segment: string): string {
    Strip(DashUnsafe(segment, false), IsDash)
  }

  function CleanedAll(pieces: seq<string>): seq<string> {
    seq(|pieces|, i requires 0 <= i < |pieces| => Cleaned(pieces[i]))
  }

  /** The folder for a candidate id; `None` stands for a manifest without a usable id. */
  function Directory(candidate: Option<string>, fallback: string): string {
    if candidate.None? then fallback
    else
      var segments := CleanedAll(Split(Strip(candidate.value, Space), '.'));
      if "" in segments || |segments| > MAX_DIRECTORY_DEPTH || |Join(segments, '/')| > MAX_DIRECTORY_LENGTH then fallback
      else Join(segments, '/')
  }

  method SkillDirectoryName(candidate: Option<string>, fallback: string) returns (directory: string)
    ensures directory == Directory(candidate, fallback)
  {
    if candidate.Some? {
      var pieces := Split(Strip(candidate.value, Space), '.');
      var segments: seq<string> := [];
      var i := 0;
      var broken := false;
      while i < |pieces| && !broken
        invariant 0 <= i <= |pieces|
        invariant broken ==> segments == [] && "" in CleanedAll(pieces)
        invariant !broken ==> segments == CleanedAll(pieces)[..i] && "" !in segments
        decreases |pieces| - i, !broken
      {
        var cleaned := Cleaned(pieces[i]);
        assert CleanedAll(pieces)[i] == cleaned;
        if cleaned == "" || cleaned == "." || cleaned == ".." {
          CleanedIsTidy(pieces[i]);
          segments, broken := [], true;
        } else {
          segments := segments + [cleaned];
          i := i + 1;
        }
      }
      assert !broken ==> segments == CleanedAll(pieces);
      if segments != [] && |segments| <= MAX_DIRECTORY_DEPTH {
        directory := Join(segments, '/');
        if |directory| <= MAX_DIRECTORY_LENGTH {
          return;
        }
      }
    }
    directory := fallback;
  }

  /** One folder name: safe characters only, not empty, no dash at either end. */
  ghost predicate TidySegment(s: string) {
    && s != "" && s[0] != '-' && s[|s| - 1] != '-'
    && forall i :: 0 <= i < |s| ==> SafeChar(s[i])
  }

  lemma {:induction false} DashUnsafeIsSafe(s: string, inRun: bool)
    ensures forall i :: 0 <= i < |DashUnsafe(s, inRun)| ==> SafeChar(DashUnsafe(s, inRun)[i])
    decreases |s|
  {
    if s != "" {
      DashUnsafeIsSafe(s[1..], !SafeChar(s[0]));
    }
  }

  lemma {:induction false} StripLeftIsSuffix(s: string, drop: char -> bool) returns (k: nat)
    ensures k <= |s| && StripLeft(s, drop) == s[k..] && (k < |s| ==> !drop(s[k]))
    decreases |s|
  {
    k := 0;
    if s != "" && drop(s[0]) {
      var rest := StripLeftIsSuffix(s[1..], drop);
      k := rest + 1;
    }
  }

  lemma {:induction false} StripRightIsPrefix(s: string, drop: char -> bool) returns (k: nat)
    ensures k <= |s| && StripRight(s, drop) == s[..k] && (k > 0 ==> !drop(s[k - 1]))
    decreases |s|
  {
    k := |s|;
    if s != "" && drop(s[|s| - 1]) {
      k := StripRightIsPrefix(s[..|s| - 1], drop);
    }
  }

  lemma MiddleIsTidy(dashed: string, j: nat, k: nat)
    requires j <= |dashed| && k <= |dashed| - j
    requires forall i :: 0 <= i < |dashed| ==> SafeChar(dashed[i])
    requires j < |dashed| ==> !IsDash(dashed[j])
    requires k > 0 ==> !IsDash(dashed[j + k - 1])
    ensures k == 0 || TidySegment(dashed[j..j + k])
  {
    hide SafeChar;
  }

  lemma CleanedIsTidy(segment: string)
    ensures Cleaned(segment) == "" || TidySegment(Cleaned(segment))
  {
    hide DashUnsafe, StripLeft, StripRight, SafeChar, IsDash, TidySegment;
    var dashed := DashUnsafe(segment, false);
    DashUnsafeIsSafe(segment, false);
    var j := StripLeftIsSuffix(dashed, IsDash);
    var k := StripRightIsPrefix(StripLeft(dashed, IsDash), IsDash);
    assert StripLeft(dashed, IsDash)[..k] == dashed[j..j + k];
    MiddleIsTidy(dashed, j, k);
  }

  ghost predicate SafeDirectory(directory: string) {
    exists segments: seq<string> ::
      && directory == Join(segments, '/')
      && 1 <= |segments| <= 6
      && |directory| <= 180
      && forall i :: 0 <= i < |segments| ==> TidySegment(segments[i])
  }

  /** Whatever the manifest says, the folder is the fallback or a safe relative path. */
  lemma DirectoryIsSafe(candidate: Option<string>, fallback: string)
    ensures Directory(candidate, fallback) == fallback || SafeDirectory(Directory(candidate, fallback))
  {
    if candidate.Some? {
      var pieces := Split(Strip(candidate.value, Space), '.');
      var segments := CleanedAll(pieces);
      if "" !in segments && |segments| <= MAX_DIRECTORY_DEPTH && |Join(segments, '/')| <= MAX_DIRECTORY_LENGTH {
        forall i | 0 <= i < |segments|
          ensures TidySegment(segments[i])
        {
          CleanedIsTidy(pieces[i]);
          assert segments[i] in segments;
        }
        assert Directory(candidate, fallback) == Join(segments, '/');
      }
    }
  }

  // What cleaning does to a piece.

  /** Letters, digits, underscore and dash, by code point. */
  predicate NameChar(c: char) {
    || 65 <= c as int <= 90 || 97 <= c as int <= 122
    || 48 <= c as int <= 57 || c as int in {45, 95}
  }

  lemma NameCharIsSafe(c: char)
    ensures NameChar(c) <==> SafeChar(c)
  {
  }

  /** Name characters stay as they are. */
  lemma {:induction false} NameCharsStay(w: string, v: string, inRun: bool)
    requires w != "" && forall c :: c in w ==> NameChar(c)
    ensures DashUnsafe(w + v, inRun) == w + DashUnsafe(v, false)
    decreases |w|
  {
    hide NameChar, SafeChar;
    NameCharIsSafe(w[0]);
    assert w[0] in w;
    assert (w + v)[1..] == w[1..] + v;
    if |w| > 1 {
      NameCharsStay(w[1..], v, false);
    } else {
      assert w[1..] + v == v;
    }
    assert w == [w[0]] + w[1..];
  }

  /** Any run of other characters becomes one dash. */
  lemma {:induction false} RunBecomesDash(u: string, v: string, inRun: bool)
    requires u != "" && (forall c :: c in u ==> !NameChar(c)) && (v == "" || NameChar(v[0]))
    ensures DashUnsafe(u + v, inRun) == (if inRun then "" else "-") + DashUnsafe(v, false)
    decreases |u|
  {
    hide NameChar, SafeChar;
    NameCharIsSafe(u[0]);
    assert u[0] in u;
    assert (u + v)[1..] == u[1..] + v;
    if |u| > 1 {
      RunBecomesDash(u[1..], v, true);
    } else {
      assert u[1..] + v == v;
      if v != "" {
        NameCharIsSafe(v[0]);
      }
    }
  }

  /** Stripping takes off what is to be dropped at both ends and nothing else. */
  lemma StripTakesEnds(a: string, x: string, b: string, drop: char -> bool)
    requires (forall c :: c in a ==> drop(c)) && (forall c :: c in b ==> drop(c))
    requires x != "" && !drop(x[0]) && !drop(x[|x| - 1])
    ensures Strip(a + x + b, drop) == x
  {
    assert a + x + b == a + (x + b);
    StripLeftTakes(a, x + b, drop);
    StripRightTakes(x, b, drop);
  }

  lemma {:induction false} StripLeftTakes(a: string, x: string, drop: char -> bool)
    requires (forall c :: c in a ==> drop(c)) && x != "" && !drop(x[0])
    ensures StripLeft(a + x, drop) == x
    decreases |a|
  {
    if a == "" {
      assert a + x == x;
    } else {
      assert a[0] in a;
      assert (a + x)[1..] == a[1..] + x;
      StripLeftTakes(a[1..], x, drop);
    }
  }

  lemma {:induction false} StripRightTakes(x: string, b: string, drop: char -> bool)
    requires (forall c :: c in b ==> drop(c)) && x != "" && !drop(x[|x| - 1])
    ensures StripRight(x + b, drop) == x
    decreases |b|
  {
    if b == "" {
      assert x + b == x;
    } else {
      assert b[|b| - 1] in b;
      assert (x + b)[..|x + b| - 1] == x + b[..|b| - 1];
      StripRightTakes(x, b[..|b| - 1], drop);
    }
  }

  /** Blanks, tabs and line ends around an id are taken off. */
  lemma SpacesAround(a: string, x: string, b: string)
    requires (forall c :: c in a || c in b ==> c in " \t\n\r" || c as int == 11 || c as int == 12)
    requires x != "" && NameChar(x[0]) && NameChar(x[|x| - 1])
    ensures Strip(a + x + b, Space) == x
  {
    StripTakesEnds(a, x, b, Space);
  }

  // When the fallback is used.

  /** Holds no character that could name a folder: all are unsafe or dashes. */
  predicate Nameless(segment: string) {
    forall i :: 0 <= i < |segment| ==> !SafeChar(segment[i]) || IsDash(segment[i])
  }

  predicate AllDashes(s: string) {
    forall i :: 0 <= i < |s| ==> IsDash(s[i])
  }

  lemma AllDashesJoin(a: string, b: string)
    ensures AllDashes(a + b) <==> AllDashes(a) && AllDashes(b)
  {
    assert forall i :: 0 <= i < |a| ==> (a + b)[i] == a[i];
    assert forall i :: 0 <= i < |b| ==> (a + b)[|a| + i] == b[i];
  }

  lemma NamelessTail(s: string)
    requires s != ""
    ensures Nameless(s) <==> (!SafeChar(s[0]) || IsDash(s[0])) && Nameless(s[1..])
  {
    assert forall i :: 1 <= i < |s| ==> s[i] == s[1..][i - 1];
  }

  lemma {:induction false} DashUnsafeKeepsNames(s: string, inRun: bool)
    ensures Nameless(s) <==> AllDashes(DashUnsafe(s, inRun))
    decreases |s|
  {
    if s != "" {
      var first: string := if SafeChar(s[0]) then [s[0]] else if inRun then "" else "-";
      var rest := DashUnsafe(s[1..], !SafeChar(s[0]));
      DashUnsafeKeepsNames(s[1..], !SafeChar(s[0]));
      NamelessTail(s);
      AllDashesJoin(first, rest);
      assert DashUnsafe(s, inRun) == first + rest;
      hide SafeChar;
      assert SafeChar(s[0]) ==> first[0] == s[0];
    }
  }

  lemma {:induction false} StrippedAway(s: string, drop: char -> bool)
    ensures Strip(s, drop) == "" <==> forall i :: 0 <= i < |s| ==> drop(s[i])
    decreases |s|
  {
    if s != "" && drop(s[0]) {
      StrippedAway(s[1..], drop);
      assert forall i :: 1 <= i < |s| ==> s[i] == s[1..][i - 1];
    } else if s != "" {
      StripRightKeepsFirst(s, drop);
    }
  }

  lemma {:induction false} StripRightKeepsFirst(s: string, drop: char -> bool)
    requires s != "" && !drop(s[0])
    ensures StripRight(s, drop) != ""
    decreases |s|
  {
    if drop(s[|s| - 1]) {
      StripRightKeepsFirst(s[..|s| - 1], drop);
    }
  }

  lemma CleanedEmptyIff(segment: string)
    ensures Cleaned(segment) == "" <==> Nameless(segment)
  {
    var dashed := DashUnsafe(segment, false);
    DashUnsafeKeepsNames(segment, false);
    StrippedAway(dashed, IsDash);
    assert AllDashes(dashed) <==> forall i :: 0 <= i < |dashed| ==> IsDash(dashed[i]);
  }

  /** An id with a nameless piece, or too many or too long pieces once cleaned. */
  ghost predicate Unusable(id: string) {
    var pieces := Split(Strip(id, Space), '.');
    || |pieces| > 6
    || (exists i :: 0 <= i < |pieces| && Nameless(pieces[i]))
    || |Join(CleanedAll(pieces), '/')| > 180
  }

  /** The fallback is used exactly without an id, when some piece of the id names
      no folder, or when the cleaned pieces are too many or too long. */
  lemma FallbackIff(candidate: Option<string>)
    ensures (forall fallback :: Directory(candidate, fallback) == fallback) <==> candidate.None? || Unusable(candidate.value)
    ensures candidate.Some? && !Unusable(candidate.value) ==>
              forall fallback :: Directory(candidate, fallback) == Join(CleanedAll(Split(Strip(candidate.value, Space), '.')), '/')
  {
    hide Nameless, Cleaned, Join, Split, Strip;
    if candidate.Some? {
      var pieces := Split(Strip(candidate.value, Space), '.');
      var segments := CleanedAll(pieces);
      forall i | 0 <= i < |pieces|
        ensures segments[i] == "" <==> Nameless(pieces[i])
      {
        CleanedEmptyIff(pieces[i]);
      }
      assert "" in segments <==> exists i :: 0 <= i < |pieces| && Nameless(pieces[i]) by {
        if i :| 0 <= i < |pieces| && Nameless(pieces[i]) {
          assert segments[i] == "";
        }
      }
      var first := Directory(candidate, "");
      var other := Directory(candidate, first + "/");
    }
  }

  // Ids that pass manifest validation.

  predicate IdChar(c: char) {
    'a' <= c <= 'z' || '0' <= c <= '9' || c == '-'
  }

  /** Lower-case alphanumeric groups joined by single dashes. */
  ghost predicate IdSegment(s: string) {
    && s != "" && s[0] != '-' && s[|s| - 1] != '-'
    && (forall i :: 0 <= i < |s| ==> IdChar(s[i]))
    && forall i :: 0 <= i < |s| - 1 ==> !(s[i] == '-' && s[i + 1] == '-')
  }

  /** At least three id segments joined by dots. */
  ghost predicate DottedId(id: string, segments: seq<string>) {
    id == Join(segments, '.') && |segments| >= 3 && forall i :: 0 <= i < |segments| ==> IdSegment(segments[i])
  }

  /** What the id pattern accepts: its end anchor also lets one final newline pass. */
  ghost predicate MatchesIdPattern(id: string, segments: seq<string>) {
    DottedId(id, segments) || (id != "" && id[|id| - 1] == '\n' && DottedId(id[..|id| - 1], segments))
  }

  ghost predicate WithinCaps(segments: seq<string>) {
    |segments| <= 6 && |Join(segments, '/')| <= 180
  }

  lemma {:induction false} SafeStaysAsIs(s: string, inRun: bool)
    requires forall j :: 0 <= j < |s| ==> SafeChar(s[j])
    ensures DashUnsafe(s, inRun) == s
    decreases |s|
  {
    if s != "" {
      SafeStaysAsIs(s[1..], false);
    }
  }

  lemma IdSegmentIsClean(s: string)
    requires IdSegment(s)
    ensures Cleaned(s) == s
  {
    SafeStaysAsIs(s, false);
  }

  lemma {:induction false} JoinEnds(segments: seq<string>)
    requires |segments| >= 1 && forall i :: 0 <= i < |segments| ==> IdSegment(segments[i])
    ensures var id := Join(segments, '.');
            id != "" && IdChar(id[0]) && IdChar(id[|id| - 1])
    decreases |segments|
  {
    if |segments| > 1 {
      JoinEnds(segments[1..]);
    }
  }

  lemma StripKeepsId(id: string, segments: seq<string>)
    requires MatchesIdPattern(id, segments)
    ensures Strip(id, Space) == Join(segments, '.')
  {
    JoinEnds(segments);
    var core := Join(segments, '.');
    if id != core {
      assert id == core + "\n";
      assert StripLeft(id, Space) == id;
      assert id[..|id| - 1] == core;
      assert StripRight(core, Space) == core;
    }
  }

  /** On validated ids within the caps, dots become slashes and nothing else changes. */
  lemma ValidIdOnlyTurnsDots(id: string, segments: seq<string>, fallback: string)
    requires MatchesIdPattern(id, segments) && WithinCaps(segments)
    ensures Directory(Some(id), fallback) == Join(segments, '/')
  {
    StripKeepsId(id, segments);
    SplitJoin(segments, '.');
    assert CleanedAll(segments) == segments by {
      forall i | 0 <= i < |segments|
        ensures CleanedAll(segments)[i] == segments[i]
      {
        IdSegmentIsClean(segments[i]);
      }
    }
  }

  /** Which validated ids share a folder: exactly those that differ at most in the final newline. */
  lemma SharedFolderIff(a: string, b: string, p: seq<string>, q: seq<string>, fallback: string)
    requires MatchesIdPattern(a, p) && MatchesIdPattern(b, q) && WithinCaps(p) && WithinCaps(q)
    ensures Directory(Some(a), fallback) == Directory(Some(b), fallback) <==> Strip(a, Space) == Strip(b, Space)
    ensures a[|a| - 1] != '\n' && b[|b| - 1] != '\n' ==> (Directory(Some(a), fallback) == Directory(Some(b), fallback) <==> a == b)
  {
    ValidIdOnlyTurnsDots(a, p, fallback);
    ValidIdOnlyTurnsDots(b, q, fallback);
    StripKeepsId(a, p);
    StripKeepsId(b, q);
    SplitJoin(p, '/');
    SplitJoin(q, '/');
    SplitJoin(p, '.');
    SplitJoin(q, '.');
  }

  /** Two such ids. */
  lemma NewlineSharesFolder(fallback: string)
    ensures MatchesIdPattern("a.b.c", ["a", "b", "c"]) && MatchesIdPattern("a.b.c\n", ["a", "b", "c"])
    ensures Directory(Some("a.b.c"), fallback) == Directory(Some("a.b.c\n"), fallback) == "a/b/c"
  {
    var p := ["a", "b", "c"];
    assert p[1..] == ["b", "c"] && p[1..][1..] == ["c"];
    assert Join(p, '.') == "a.b.c" && Join(p, '/') == "a/b/c";
    assert "a.b.c\n"[..5] == "a.b.c";
    ValidIdOnlyTurnsDots("a.b.c", p, fallback);
    ValidIdOnlyTurnsDots("a.b.c\n", p, fallback);
  }
}
