/** The line machines over unified diffs: one reports every hunk whose declared counts do not match its body,
    the other keeps the sections of an allow-list. Texts are given as their lines; the regular expressions
    and the path extraction are parameters. */
module PatchLines {
  import opened Prelude

  type Line = string

  predicate IsDiff(l: Line) {
    "diff --git " <= l
  }

  predicate IsHunk(l: Line) {
    "@@ " <= l
  }

  predicate IsBoundary(l: Line) {
    IsHunk(l) || IsDiff(l)
  }

  datatype Counts = Counts(before: nat, after: nat)

  /** DIFF_RE's first group, HUNK_RE's two counts (an absent count is 1), and the new path of a diff line. */
  datatype Syntax = Syntax(diffPath: Line -> Option<string>, hunk: Line -> Option<Counts>, target: Line -> string) {
    ghost predicate Valid() {
      forall l :: diffPath(l).Some? ==> IsDiff(l)
    }
  }

  datatype Mismatch =
    | InvalidHeader(path: string, header: Line)
    | WrongCounts(path: string, header: Line, declared: Counts, actual: Counts)

  // ------------------------------------------------- what must be reported

  /** The body of a hunk: everything up to the next hunk or section. */
  function Body(lines: seq<Line>): (body: seq<Line>)
    ensures |body| <= |lines|
  {
    if |lines| == 0 || IsBoundary(lines[0]) then [] else [lines[0]] + Body(lines[1..])
  }

  function LineCounts(l: Line): Counts {
    if |l| == 0 || "\\ No newline" <= l then Counts(0, 0)
    else Counts(if l[0] == ' ' || l[0] == '-' then 1 else 0, if l[0] == ' ' || l[0] == '+' then 1 else 0)
  }

  function BodyCounts(body: seq<Line>): Counts {
    if |body| == 0 then Counts(0, 0)
    else
      var c, rest := LineCounts(body[0]), BodyCounts(body[1..]);
      Counts(c.before + rest.before, c.after + rest.after)
  }

  function HunkReport(syntax: Syntax, path: string, header: Line, body: seq<Line>): seq<Mismatch> {
    match syntax.hunk(header)
    case None => [InvalidHeader(path, header)]
    case Some(declared) =>
      if BodyCounts(body) == declared then [] else [WrongCounts(path, header, declared, BodyCounts(body))]
  }

  /** One report per bad hunk, in order, under the last path named before it. */
  function Reports(syntax: Syntax, path: string, lines: seq<Line>): seq<Mismatch>
    decreases |lines|
  {
    if |lines| == 0 then []
    else if IsHunk(lines[0]) then
      HunkReport(syntax, path, lines[0], Body(lines[1..])) + Reports(syntax, path, lines[1..])
    else
      Reports(syntax, if syntax.diffPath(lines[0]).Some? then syntax.diffPath(lines[0]).value else path, lines[1..])
  }

  lemma BodySkips(syntax: Syntax, path: string, lines: seq<Line>)
    requires syntax.Valid()
    ensures Reports(syntax, path, lines) == Reports(syntax, path, lines[|Body(lines)|..])
    decreases |lines|
  {
    hide IsDiff, IsHunk;
    if |lines| > 0 && !IsBoundary(lines[0]) {
      BodySkips(syntax, path, lines[1..]);
      assert lines[1..][|Body(lines[1..])|..] == lines[|Body(lines)|..];
    }
  }

  /** hunk_count_mismatches: index-driven, each header swallowing its body. */
  method HunkCountMismatches(syntax: Syntax, lines: seq<Line>) returns (mismatches: seq<Mismatch>)
    requires syntax.Valid()
    ensures mismatches == Reports(syntax, "<unknown>", lines)
  {
    hide IsDiff, IsHunk, Reports, Body, BodyCounts;
    mismatches := [];
    var currentPath := "<unknown>";
    var i := 0;
    assert lines[0..] == lines;
    while i < |lines|
      invariant 0 <= i <= |lines|
      invariant mismatches + Reports(syntax, currentPath, lines[i..]) == Reports(syntax, "<unknown>", lines)
    {
      ReportsAt(syntax, currentPath, lines, i);
      var diffMatch := syntax.diffPath(lines[i]);
      if diffMatch.Some? {
        NotBoth(lines[i]);
        currentPath := diffMatch.value;
        i := i + 1;
        continue;
      }
      if !IsHunk(lines[i]) {
        i := i + 1;
        continue;
      }
      var header := lines[i];
      var declared := syntax.hunk(header);
      if declared.None? {
        mismatches := mismatches + [InvalidHeader(currentPath, header)];
        i := i + 1;
        continue;
      }
      var actual, next := CountBody(lines, i + 1);
      BodySkips(syntax, currentPath, lines[i + 1..]);
      assert lines[i + 1..][next - (i + 1)..] == lines[next..];
      if actual != declared.value {
        mismatches := mismatches + [WrongCounts(currentPath, header, declared.value, actual)];
      }
      i := next;
    }
    assert lines[i..] == [];
    ReportsNone(syntax, currentPath);
  }

  lemma ReportsNone(syntax: Syntax, path: string)
    ensures Reports(syntax, path, []) == []
  {
  }

  lemma NotBoth(l: Line)
    requires IsDiff(l)
    ensures !IsHunk(l)
  {
    assert "diff --git "[0] == 'd' && "@@ "[0] == '@';
    assert l[0] == "diff --git "[0];
  }

  lemma ReportsAt(syntax: Syntax, path: string, lines: seq<Line>, i: nat)
    requires i < |lines|
    ensures Reports(syntax, path, lines[i..]) ==
              if IsHunk(lines[i]) then
                HunkReport(syntax, path, lines[i], Body(lines[i + 1..])) + Reports(syntax, path, lines[i + 1..])
              else
                Reports(syntax, if syntax.diffPath(lines[i]).Some? then syntax.diffPath(lines[i]).value else path, lines[i + 1..])
  {
    hide IsDiff, IsHunk, HunkReport;
    assert lines[i..][1..] == lines[i + 1..];
  }

  /** The inner loop: count old and new lines up to the next boundary. */
  method CountBody(lines: seq<Line>, start: nat) returns (actual: Counts, i: nat)
    requires start <= |lines|
    ensures i == start + |Body(lines[start..])| <= |lines|
    ensures actual == BodyCounts(Body(lines[start..]))
  {
    hide IsDiff, IsHunk;
    var oldActual, newActual := 0, 0;
    i := start;
    ghost var body := Body(lines[start..]);
    while i < |lines| && !IsHunk(lines[i]) && !IsDiff(lines[i])
      invariant start <= i <= |lines|
      invariant |body| == i - start + |Body(lines[i..])|
      invariant BodyCounts(body) == Counts(oldActual + BodyCounts(Body(lines[i..])).before,
                                           newActual + BodyCounts(Body(lines[i..])).after)
    {
      assert lines[i..][1..] == lines[i + 1..];
      assert Body(lines[i..]) == [lines[i]] + Body(lines[i + 1..]);
      var line := lines[i];
      if |line| > 0 && !("\\ No newline" <= line) {
        if line[0] == ' ' || line[0] == '-' { oldActual := oldActual + 1; }
        if line[0] == ' ' || line[0] == '+' { newActual := newActual + 1; }
      }
      i := i + 1;
    }
    actual := Counts(oldActual, newActual);
  }

  // ----------------------------------------------------------- the filter

  predicate Wanted(syntax: Syntax, allowed: set<string>, l: Line) {
    syntax.target(l) in allowed
  }

  /** The lines kept from here on, given whether the section in progress is kept. */
  function Kept(syntax: Syntax, allowed: set<string>, keep: bool, lines: seq<Line>): seq<Line>
    decreases |lines|
  {
    if |lines| == 0 then []
    else
      var k := if IsDiff(lines[0]) then Wanted(syntax, allowed, lines[0]) else keep;
      (if k then [lines[0]] else []) + Kept(syntax, allowed, k, lines[1..])
  }

  /** filter_patch: collect the section in progress, and keep it or drop it when the next one starts. */
  method FilterPatch(syntax: Syntax, allowed: set<string>, lines: seq<Line>) returns (result: seq<Line>)
    ensures result == Kept(syntax, allowed, false, lines)
  {
    hide IsDiff, Kept, Wanted;
    var selected: seq<Line> := [];
    var current: seq<Line> := [];
    var keep := false;
    for i := 0 to |lines|
      invariant |current| == 0 ==> !keep
      invariant Pending(selected, current, keep) + Kept(syntax, allowed, keep, lines[i..])
             == Kept(syntax, allowed, false, lines)
    {
      var line := lines[i];
      KeptStep(syntax, allowed, keep, lines, i);
      if IsDiff(line) {
        if |current| > 0 && keep {
          selected := selected + current;
        }
        current := [line];
        keep := syntax.target(line) in allowed;
        WantedTarget(syntax, allowed, line);
      } else if |current| > 0 {
        current := current + [line];
      }
    }
    if |current| > 0 && keep {
      selected := selected + current;
    }
    assert lines[|lines|..] == [];
    KeptNone(syntax, allowed, keep);
    result := selected;
  }

  /** What has been kept so far, the section in progress included when it is to be kept. */
  function Pending(selected: seq<Line>, current: seq<Line>, keep: bool): seq<Line> {
    selected + (if keep then current else [])
  }

  lemma WantedTarget(syntax: Syntax, allowed: set<string>, l: Line)
    ensures Wanted(syntax, allowed, l) == (syntax.target(l) in allowed)
  {
  }

  lemma KeptNone(syntax: Syntax, allowed: set<string>, keep: bool)
    ensures Kept(syntax, allowed, keep, []) == []
  {
  }

  lemma KeptStep(syntax: Syntax, allowed: set<string>, keep: bool, lines: seq<Line>, i: nat)
    requires i < |lines|
    ensures var k := if IsDiff(lines[i]) then Wanted(syntax, allowed, lines[i]) else keep;
            Kept(syntax, allowed, keep, lines[i..]) == (if k then [lines[i]] else []) + Kept(syntax, allowed, k, lines[i + 1..])
  {
    hide IsDiff;
    assert lines[i..][1..] == lines[i + 1..];
  }

  // ---------------------------------------------- exactly the allowed sections

  /** The lines up to the next section start. */
  function Section(lines: seq<Line>): (s: seq<Line>)
    ensures |s| <= |lines|
  {
    if |lines| == 0 || IsDiff(lines[0]) then [] else [lines[0]] + Section(lines[1..])
  }

  /** The text cut at its diff lines, without what precedes the first one. */
  function Sections(lines: seq<Line>): seq<seq<Line>> {
    if |lines| == 0 then []
    else if IsDiff(lines[0]) then [[lines[0]] + Section(lines[1..])] + Sections(lines[1..])
    else Sections(lines[1..])
  }

  function AllowedSections(syntax: Syntax, allowed: set<string>, sections: seq<seq<Line>>): seq<Line> {
    if |sections| == 0 then []
    else (if |sections[0]| > 0 && Wanted(syntax, allowed, sections[0][0]) then sections[0] else [])
         + AllowedSections(syntax, allowed, sections[1..])
  }

  /** The filter returns the allowed sections, whole, in order, and nothing else. */
  lemma {:induction false} KeptIsAllowedSections(syntax: Syntax, allowed: set<string>, keep: bool, lines: seq<Line>)
    ensures Kept(syntax, allowed, keep, lines)
         == (if keep then Section(lines) else []) + AllowedSections(syntax, allowed, Sections(lines))
    decreases |lines|
  {
    hide IsDiff, IsHunk;
    if |lines| > 0 {
      var l := lines[0];
      if IsDiff(l) {
        var k := Wanted(syntax, allowed, l);
        KeptIsAllowedSections(syntax, allowed, k, lines[1..]);
        var first := [l] + Section(lines[1..]);
        assert Sections(lines)[0] == first && Sections(lines)[1..] == Sections(lines[1..]);
        assert AllowedSections(syntax, allowed, Sections(lines))
            == (if k then first else []) + AllowedSections(syntax, allowed, Sections(lines[1..]));
      } else {
        KeptIsAllowedSections(syntax, allowed, keep, lines[1..]);
      }
    }
  }

  /** With nothing kept so far, what comes out starts with a section start. */
  lemma {:induction false} DroppedStartsWithDiff(syntax: Syntax, allowed: set<string>, lines: seq<Line>)
    ensures var r := Kept(syntax, allowed, false, lines); |r| == 0 || IsDiff(r[0])
    decreases |lines|
  {
    hide IsDiff, IsHunk;
    if |lines| > 0 && !(IsDiff(lines[0]) && Wanted(syntax, allowed, lines[0])) {
      DroppedStartsWithDiff(syntax, allowed, lines[1..]);
    }
  }

  /** Filtering twice is filtering once. */
  lemma {:induction false} FilterIdempotent(syntax: Syntax, allowed: set<string>, keep: bool, lines: seq<Line>)
    ensures Kept(syntax, allowed, keep, Kept(syntax, allowed, keep, lines)) == Kept(syntax, allowed, keep, lines)
    decreases |lines|
  {
    hide IsDiff, IsHunk;
    if |lines| > 0 {
      var l := lines[0];
      var k := if IsDiff(l) then Wanted(syntax, allowed, l) else keep;
      var rest := Kept(syntax, allowed, k, lines[1..]);
      FilterIdempotent(syntax, allowed, k, lines[1..]);
      if k {
        assert ([l] + rest)[1..] == rest;
      } else {
        DroppedStartsWithDiff(syntax, allowed, lines[1..]);
        assert Kept(syntax, allowed, keep, lines) == rest;
        assert Kept(syntax, allowed, keep, rest) == Kept(syntax, allowed, false, rest);
      }
    }
  }

  // -------------------------------------------------- hunks stay consistent

  /** A kept hunk keeps its body: where the full text goes on with a dropped section, the filtered text goes
      on with a kept one or ends. */
  lemma {:induction false} KeptBody(syntax: Syntax, allowed: set<string>, lines: seq<Line>)
    ensures Body(Kept(syntax, allowed, true, lines)) == Body(lines)
    decreases |lines|
  {
    hide IsDiff, IsHunk;
    if |lines| > 0 {
      var l := lines[0];
      if IsDiff(l) {
        if !Wanted(syntax, allowed, l) {
          DroppedStartsWithDiff(syntax, allowed, lines[1..]);
        }
      } else if !IsHunk(l) {
        KeptBody(syntax, allowed, lines[1..]);
        assert ([l] + Kept(syntax, allowed, true, lines[1..]))[1..] == Kept(syntax, allowed, true, lines[1..]);
      }
    }
  }

  lemma {:induction false} ReportsIgnorePath(syntax: Syntax, p: string, q: string, lines: seq<Line>)
    ensures Reports(syntax, p, lines) == [] <==> Reports(syntax, q, lines) == []
    decreases |lines|
  {
    hide IsDiff, IsHunk;
    if |lines| > 0 {
      var p' := if syntax.diffPath(lines[0]).Some? then syntax.diffPath(lines[0]).value else p;
      var q' := if syntax.diffPath(lines[0]).Some? then syntax.diffPath(lines[0]).value else q;
      if IsHunk(lines[0]) {
        ReportsIgnorePath(syntax, p, q, lines[1..]);
      } else {
        ReportsIgnorePath(syntax, p', q', lines[1..]);
      }
    }
  }

  /** If no hunk of the full patch is reported, none of the filtered patch is. */
  lemma {:induction false} FilterKeepsConsistency(syntax: Syntax, allowed: set<string>, keep: bool, path: string, lines: seq<Line>)
    requires Reports(syntax, path, lines) == []
    ensures Reports(syntax, path, Kept(syntax, allowed, keep, lines)) == []
    decreases |lines|
  {
    hide IsDiff, IsHunk;
    if |lines| > 0 {
      var l, tail := lines[0], lines[1..];
      var k := if IsDiff(l) then Wanted(syntax, allowed, l) else keep;
      var rest := Kept(syntax, allowed, k, tail);
      var path' := if !IsHunk(l) && syntax.diffPath(l).Some? then syntax.diffPath(l).value else path;
      FilterKeepsConsistency(syntax, allowed, k, path', tail);
      ReportsIgnorePath(syntax, path', path, rest);
      if k {
        assert ([l] + rest)[1..] == rest;
        if IsHunk(l) {
          KeptBody(syntax, allowed, tail);
        }
      } else {
        assert Kept(syntax, allowed, keep, lines) == rest;
      }
    }
  }

  predicate HunkGood(syntax: Syntax, lines: seq<Line>, i: nat)
    requires i < |lines|
  {
    IsHunk(lines[i]) ==> syntax.hunk(lines[i]) == Some(BodyCounts(Body(lines[i + 1..])))
  }

  /** The path named last before line i. */
  function PathBefore(syntax: Syntax, path: string, lines: seq<Line>, i: nat): string
    requires i <= |lines|
  {
    if i == 0 then path
    else if !IsHunk(lines[i - 1]) && syntax.diffPath(lines[i - 1]).Some? then syntax.diffPath(lines[i - 1]).value
    else PathBefore(syntax, path, lines, i - 1)
  }

  /** What line i alone contributes: nothing, or its one report. */
  function ReportAt(syntax: Syntax, path: string, lines: seq<Line>, i: nat): seq<Mismatch>
    requires i < |lines|
  {
    if HunkGood(syntax, lines, i) then []
    else
      var header, actual := lines[i], BodyCounts(Body(lines[i + 1..]));
      match syntax.hunk(header)
      case None => [InvalidHeader(PathBefore(syntax, path, lines, i), header)]
      case Some(declared) => [WrongCounts(PathBefore(syntax, path, lines, i), header, declared, actual)]
  }

  function ReportsUpTo(syntax: Syntax, path: string, lines: seq<Line>, i: nat): seq<Mismatch>
    requires i <= |lines|
  {
    if i == 0 then [] else ReportsUpTo(syntax, path, lines, i - 1) + ReportAt(syntax, path, lines, i - 1)
  }

  /** A hunk is reported, once, in its place and under the path named last before it, exactly when its header is
      malformed or its counts differ from its body: the reports are those of the bad hunks, in line order. */
  lemma EveryBadHunkReported(syntax: Syntax, path: string, lines: seq<Line>)
    ensures Reports(syntax, path, lines) == ReportsUpTo(syntax, path, lines, |lines|)
    ensures forall i :: 0 <= i < |lines| ==>
              |ReportAt(syntax, path, lines, i)| == if HunkGood(syntax, lines, i) then 0 else 1
  {
    hide Reports, ReportsUpTo, HunkGood, PathBefore, Body, BodyCounts;
    ReportsSplit(syntax, path, lines, |lines|);
    assert lines[|lines|..] == [];
    ReportsNone(syntax, PathBefore(syntax, path, lines, |lines|));
  }

  lemma {:induction false} ReportsSplit(syntax: Syntax, path: string, lines: seq<Line>, i: nat)
    requires i <= |lines|
    ensures Reports(syntax, path, lines)
         == ReportsUpTo(syntax, path, lines, i) + Reports(syntax, PathBefore(syntax, path, lines, i), lines[i..])
  {
    hide Reports, IsHunk, IsDiff, Body, BodyCounts;
    if i == 0 {
      assert lines[0..] == lines;
    } else {
      ReportsSplit(syntax, path, lines, i - 1);
      ReportsAt(syntax, PathBefore(syntax, path, lines, i - 1), lines, i - 1);
    }
  }

  /** Nothing is reported exactly when every hunk is good. */
  lemma {:induction false} NoneReported(syntax: Syntax, path: string, lines: seq<Line>)
    ensures Reports(syntax, path, lines) == [] <==> forall i :: 0 <= i < |lines| ==> HunkGood(syntax, lines, i)
    decreases |lines|
  {
    hide IsHunk, Body, BodyCounts;
    if |lines| > 0 {
      var tail := lines[1..];
      var path' := if !IsHunk(lines[0]) && syntax.diffPath(lines[0]).Some? then syntax.diffPath(lines[0]).value else path;
      NoneReported(syntax, path', tail);
      forall i | 0 <= i < |tail| ensures HunkGood(syntax, tail, i) == HunkGood(syntax, lines, i + 1) {
        assert tail[i + 1..] == lines[i + 2..];
      }
      assert (forall i :: 0 <= i < |lines| ==> HunkGood(syntax, lines, i)) <==>
             HunkGood(syntax, lines, 0) && (forall i :: 0 <= i < |tail| ==> HunkGood(syntax, tail, i)) by {
        if forall i :: 0 <= i < |lines| ==> HunkGood(syntax, lines, i) {
          forall i | 0 <= i < |tail| ensures HunkGood(syntax, tail, i) {
            assert HunkGood(syntax, lines, i + 1);
          }
        }
        if HunkGood(syntax, lines, 0) && (forall i :: 0 <= i < |tail| ==> HunkGood(syntax, tail, i)) {
          forall i | 0 <= i < |lines| ensures HunkGood(syntax, lines, i) {
            if i > 0 { assert HunkGood(syntax, tail, i - 1); }
          }
        }
      }
    }
  }

  // --------------------------------------------------------- written and read

  /** One line of an edit: kept, deleted from the old text, inserted into the new one, or the remark that a text
      does not end in a line feed. */
  datatype Edit = Keep(text: string) | Delete(text: string) | Insert(text: string) | NoNewline

  function WriteLine(e: Edit): Line {
    match e
    case Keep(text) => " " + text
    case Delete(text) => "-" + text
    case Insert(text) => "+" + text
    case NoNewline => "\\ No newline at end of file"
  }

  function Write(edits: seq<Edit>): seq<Line> {
    if |edits| == 0 then [] else [WriteLine(edits[0])] + Write(edits[1..])
  }

  /** The two texts an edit relates. */
  function OldText(edits: seq<Edit>): seq<string> {
    if |edits| == 0 then []
    else (if edits[0].Keep? || edits[0].Delete? then [edits[0].text] else []) + OldText(edits[1..])
  }

  function NewText(edits: seq<Edit>): seq<string> {
    if |edits| == 0 then []
    else (if edits[0].Keep? || edits[0].Insert? then [edits[0].text] else []) + NewText(edits[1..])
  }

  lemma LineWritten(e: Edit)
    ensures !IsBoundary(WriteLine(e))
    ensures LineCounts(WriteLine(e))
         == Counts(if e.Keep? || e.Delete? then 1 else 0, if e.Keep? || e.Insert? then 1 else 0)
  {
    var l := WriteLine(e);
    assert "diff --git "[0] == 'd' && "@@ "[0] == '@' && "\\ No newline"[0] == '\\';
    assert l[0] == match e case Keep(_) => ' ' case Delete(_) => '-' case Insert(_) => '+' case NoNewline => '\\';
    if "\\ No newline" <= l { assert l[0] == "\\ No newline"[0]; }
    if e.NoNewline? { assert l == "\\ No newline" + " at end of file"; }
  }

  /** The body written for an edit counts the lengths of the two texts it relates. */
  lemma {:induction false} BodyOfEdit(edits: seq<Edit>, rest: seq<Line>)
    requires |rest| == 0 || IsBoundary(rest[0])
    ensures Body(Write(edits) + rest) == Write(edits)
    ensures BodyCounts(Write(edits)) == Counts(|OldText(edits)|, |NewText(edits)|)
  {
    hide IsBoundary, WriteLine, LineCounts;
    if |edits| == 0 {
      assert Write(edits) + rest == rest;
    } else {
      var l := WriteLine(edits[0]);
      var tail := Write(edits[1..]);
      LineWritten(edits[0]);
      BodyOfEdit(edits[1..], rest);
      assert Write(edits) + rest == [l] + (tail + rest);
      assert ([l] + (tail + rest))[1..] == tail + rest;
      assert ([l] + tail)[1..] == tail;
    }
  }

  /** A hunk written for an edit is good exactly when its header declares the lengths of the two texts. */
  lemma HunkOfEdit(syntax: Syntax, before: seq<Line>, header: Line, edits: seq<Edit>, rest: seq<Line>)
    requires IsHunk(header) && (|rest| == 0 || IsBoundary(rest[0]))
    ensures HunkGood(syntax, before + [header] + Write(edits) + rest, |before|)
            <==> syntax.hunk(header) == Some(Counts(|OldText(edits)|, |NewText(edits)|))
  {
    hide IsHunk, IsBoundary, Body, BodyCounts, Write;
    var lines := before + [header] + Write(edits) + rest;
    assert lines[|before|] == header;
    assert lines[|before| + 1..] == Write(edits) + rest;
    BodyOfEdit(edits, rest);
  }

  function Join(sections: seq<seq<Line>>): seq<Line> {
    if |sections| == 0 then [] else sections[0] + Join(sections[1..])
  }

  /** A section: a diff line, then lines that are not. */
  predicate IsSection(s: seq<Line>) {
    |s| > 0 && IsDiff(s[0]) && forall i :: 1 <= i < |s| ==> !IsDiff(s[i])
  }

  function WithTarget(syntax: Syntax, allowed: set<string>, sections: seq<seq<Line>>): seq<seq<Line>> {
    if |sections| == 0 then []
    else (if |sections[0]| > 0 && syntax.target(sections[0][0]) in allowed then [sections[0]] else [])
         + WithTarget(syntax, allowed, sections[1..])
  }

  lemma {:induction false} KeptOfPlain(syntax: Syntax, allowed: set<string>, keep: bool, plain: seq<Line>, rest: seq<Line>)
    requires forall i :: 0 <= i < |plain| ==> !IsDiff(plain[i])
    ensures Kept(syntax, allowed, keep, plain + rest) == (if keep then plain else []) + Kept(syntax, allowed, keep, rest)
  {
    hide IsDiff;
    if |plain| == 0 {
      assert plain + rest == rest;
    } else {
      assert (plain + rest)[1..] == plain[1..] + rest;
      KeptOfPlain(syntax, allowed, keep, plain[1..], rest);
      assert plain == [plain[0]] + plain[1..];
    }
  }

  lemma KeptOfSection(syntax: Syntax, allowed: set<string>, keep: bool, s: seq<Line>, rest: seq<Line>)
    requires IsSection(s)
    ensures var wanted := syntax.target(s[0]) in allowed;
            Kept(syntax, allowed, keep, s + rest) == (if wanted then s else []) + Kept(syntax, allowed, wanted, rest)
  {
    hide IsDiff;
    var wanted := syntax.target(s[0]) in allowed;
    var all := s + rest;
    assert all[1..] == s[1..] + rest && all[0] == s[0];
    KeptOfPlain(syntax, allowed, wanted, s[1..], rest);
    assert s == [s[0]] + s[1..];
  }

  /** A patch made of sections is filtered to exactly those whose path is allowed, each whole, in order. */
  lemma {:induction false} FilterOfSections(syntax: Syntax, allowed: set<string>, keep: bool, sections: seq<seq<Line>>)
    requires forall i :: 0 <= i < |sections| ==> IsSection(sections[i])
    ensures Kept(syntax, allowed, keep, Join(sections)) == Join(WithTarget(syntax, allowed, sections))
    decreases |sections|
  {
    hide IsSection, Kept;
    if |sections| > 0 {
      var s, kept := sections[0], WithTarget(syntax, allowed, sections[1..]);
      assert IsSection(s);
      SectionNonEmpty(s);
      KeptOfSection(syntax, allowed, keep, s, Join(sections[1..]));
      FilterOfSections(syntax, allowed, syntax.target(s[0]) in allowed, sections[1..]);
      assert ([s] + kept)[1..] == kept && [] + kept == kept;
      assert [] + Join(kept) == Join(kept);
    } else {
      KeptNone(syntax, allowed, keep);
    }
  }

  lemma SectionNonEmpty(s: seq<Line>)
    requires IsSection(s)
    ensures |s| > 0
  {
  }
}
