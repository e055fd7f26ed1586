/** The text form of step paths (step_path.go): segments joined by pipes. It loses nothing, so paths can be compared as structures. */
module StepPaths {
  import opened Common
  import opened Decimal
  import opened StepTree

  function BranchName(branch: Branch): string {
    match branch
    case Root => ""
    case Yes => "yes"
    case No => "no"
  }

  /** BuildStepPath, on text. */
  function BuildText(parent: string, branch: string, index: nat): string {
    var suffix := if branch != "" then branch + "|" + FormatNat(index) else FormatNat(index);
    if parent == "" then suffix else parent + "|" + suffix
  }

  function PartsOf(seg: Segment): seq<string> {
    if seg.branch.Root? then [FormatNat(seg.index)] else [BranchName(seg.branch), FormatNat(seg.index)]
  }

  function Parts(path: Path): seq<string> {
    if path == [] then [] else PartsOf(path[0]) + Parts(path[1..])
  }

  /** strings.Join(parts, "|"). */
  function Join(parts: seq<string>): string {
    if parts == [] then ""
    else if |parts| == 1 then parts[0]
    else Join(parts[..|parts| - 1]) + "|" + parts[|parts| - 1]
  }

  function FormatStepPath(path: Path): string { Join(Parts(path)) }

  /** strings.Split(s, "|"). */
  function SplitPipes(s: string): (parts: seq<string>)
    ensures parts != []
  {
    if s == "" then [""]
    else
      var init, c := SplitPipes(s[..|s| - 1]), s[|s| - 1];
      if c == '|' then init + [""] else init[..|init| - 1] + [init[|init| - 1] + [c]]
  }

  /** A segment as parsed: the index may be signed. */
  datatype Parsed = Parsed(branch: Branch, index: int)

  /** strconv.Atoi: an optional sign, then digits. */
  function Atoi(s: string): Option<int> {
    var digits := if s != "" && (s[0] == '+' || s[0] == '-') then s[1..] else s;
    match ParseNat(digits)
    case None => None
    case Some(n) =>
      var value: int := n;
      Some(if s[0] == '-' then -value else value)
  }

  function ParseParts(parts: seq<string>): Option<seq<Parsed>> {
    if parts == [] then Some([])
    else
      var named := parts[0] == "yes" || parts[0] == "no";
      if named && |parts| < 2 then None
      else
        var used := if named then 2 else 1;
        var branch := if !named then Root else if parts[0] == "yes" then Yes else No;
        match (Atoi(parts[used - 1]), ParseParts(parts[used..]))
        case (Some(index), Some(rest)) => Some([Parsed(branch, index)] + rest)
        case _ => None
  }

  function ParseStepPath(s: string): Option<seq<Parsed>> {
    if s == "" then None else ParseParts(SplitPipes(s))
  }

  function AsParsed(path: Path): seq<Parsed> {
    seq(|path|, i requires 0 <= i < |path| => Parsed(path[i].branch, path[i].index))
  }

  /* ---- Splitting undoes joining ---- */

  lemma {:induction false} SplitPlain(s: string)
    requires '|' !in s
    ensures SplitPipes(s) == [s]
  {
    if s != "" {
      SplitPlain(s[..|s| - 1]);
      assert s == s[..|s| - 1] + [s[|s| - 1]];
    }
  }

  lemma {:induction false} SplitAppend(a: string, b: string)
    requires '|' !in b
    ensures SplitPipes(a + "|" + b) == SplitPipes(a) + [b]
    decreases |b|
  {
    var s := a + "|" + b;
    if b == "" {
      assert s[..|s| - 1] == a;
    } else {
      var n := |b| - 1;
      assert s[..|s| - 1] == a + "|" + b[..n];
      SplitAppend(a, b[..n]);
      assert b == b[..n] + [b[n]];
    }
  }

  lemma JoinSteps(parts: seq<string>, init: seq<string>, last: string)
    requires |parts| > 1 && init == parts[..|parts| - 1] && last == parts[|parts| - 1]
    ensures Join(parts) == Join(init) + "|" + last
  {
  }

  lemma {:induction false} SplitJoin(parts: seq<string>)
    requires parts != [] && forall p | p in parts :: '|' !in p
    ensures SplitPipes(Join(parts)) == parts
  {
    var n := |parts| - 1;
    if n == 0 {
      SplitPlain(parts[0]);
    } else {
      var init, last := parts[..n], parts[n];
      assert last in parts && forall p | p in init :: p in parts;
      SplitJoin(init);
      JoinSteps(parts, init, last);
      SplitAppend(Join(init), last);
      assert init + [last] == parts;
    }
  }

  lemma {:induction false} PartsArePlain(path: Path)
    ensures forall p | p in Parts(path) :: '|' !in p && p != ""
    ensures path != [] ==> Parts(path) != []
  {
    if path != [] {
      PartsArePlain(path[1..]);
      forall p | p in PartsOf(path[0]) ensures '|' !in p && p != "" {
        assert p == FormatNat(path[0].index) || p == "yes" || p == "no";
      }
    }
  }

  lemma AtoiFormat(n: nat)
    ensures Atoi(FormatNat(n)) == Some(n)
    ensures FormatNat(n) != "yes" && FormatNat(n) != "no"
  {
    ParseFormat(n);
    assert IsDigit(FormatNat(n)[0]);
  }

  lemma {:induction false} ParsePartsOfPath(path: Path)
    ensures ParseParts(Parts(path)) == Some(AsParsed(path))
  {
    if path == [] {
      assert AsParsed(path) == [];
    } else {
      var seg, rest := path[0], path[1..];
      AtoiFormat(seg.index);
      ParsePartsOfPath(rest);
      var parts, used := Parts(path), |PartsOf(seg)|;
      assert parts[used..] == Parts(rest);
      assert parts[0] == PartsOf(seg)[0] && parts[used - 1] == FormatNat(seg.index);
      assert |"no"| != |"yes"|;
      assert (parts[0] == "yes" <==> seg.branch.Yes?) && (parts[0] == "no" <==> seg.branch.No?);
      assert AsParsed(path) == [Parsed(seg.branch, seg.index)] + AsParsed(rest);
    }
  }

  /** Parsing a formatted path gives its segments back. */
  lemma RoundTrip(path: Path)
    requires path != []
    ensures ParseStepPath(FormatStepPath(path)) == Some(AsParsed(path))
  {
    PartsArePlain(path);
    SplitJoin(Parts(path));
    ParsePartsOfPath(path);
    JoinNonEmpty(Parts(path));
  }

  lemma JoinNonEmpty(parts: seq<string>)
    requires parts != [] && forall p | p in parts :: p != ""
    ensures Join(parts) != ""
  {
    assert parts[0] in parts;
  }

  /** Distinct paths have distinct texts. */
  lemma FormatInjective(p: Path, q: Path)
    requires FormatStepPath(p) == FormatStepPath(q)
    ensures p == q
  {
    PartsArePlain(p);
    PartsArePlain(q);
    if p == [] || q == [] {
      if p != [] { JoinNonEmpty(Parts(p)); }
      if q != [] { JoinNonEmpty(Parts(q)); }
    } else {
      RoundTrip(p);
      RoundTrip(q);
      assert AsParsed(p) == AsParsed(q);
      forall i | 0 <= i < |p| ensures p[i] == q[i] {
        assert AsParsed(p)[i] == AsParsed(q)[i];
      }
    }
  }

  lemma {:induction false} PartsConcat(a: Path, b: Path)
    ensures Parts(a + b) == Parts(a) + Parts(b)
    decreases |a|
  {
    if a == [] {
      assert a + b == b;
    } else {
      assert (a + b)[1..] == a[1..] + b;
      PartsConcat(a[1..], b);
    }
  }

  lemma JoinOneMore(parts: seq<string>, p: string)
    requires parts != []
    ensures Join(parts + [p]) == Join(parts) + "|" + p
  {
    assert (parts + [p])[..|parts|] == parts;
  }

  /** Extending a path and then formatting it is the engine's string concatenation. */
  lemma BuildIsText(parent: Path, branch: Branch, index: nat)
    ensures FormatStepPath(BuildStepPath(parent, branch, index)) == BuildText(FormatStepPath(parent), BranchName(branch), index)
  {
    var seg := Segment(branch, index);
    PartsConcat(parent, [seg]);
    assert Parts([seg]) == PartsOf(seg);
    PartsArePlain(parent);
    if parent == [] {
      assert [] + PartsOf(seg) == PartsOf(seg);
      JoinSegment([], seg);
    } else {
      JoinNonEmpty(Parts(parent));
      JoinSegment(Parts(parent), seg);
    }
  }

  /** The text of a path, written out: the index at the top, and a branch name and an index for a fork it is under. */
  lemma PathTexts(i: nat, j: nat)
    ensures FormatStepPath([Segment(Root, i)]) == FormatNat(i)
    ensures FormatStepPath([Segment(Root, i), Segment(Yes, j)]) == FormatNat(i) + "|" + ("yes" + "|" + FormatNat(j))
    ensures FormatStepPath([Segment(Root, i), Segment(No, j)]) == FormatNat(i) + "|" + ("no" + "|" + FormatNat(j))
  {
    BuildIsText([], Root, i);
    assert [] + [Segment(Root, i)] == [Segment(Root, i)];
    BuildIsText([Segment(Root, i)], Yes, j);
    BuildIsText([Segment(Root, i)], No, j);
    assert [Segment(Root, i)] + [Segment(Yes, j)] == [Segment(Root, i), Segment(Yes, j)];
    assert [Segment(Root, i)] + [Segment(No, j)] == [Segment(Root, i), Segment(No, j)];
  }

  lemma JoinSegment(before: seq<string>, seg: Segment)
    ensures var suffix := if seg.branch.Root? then FormatNat(seg.index) else BranchName(seg.branch) + "|" + FormatNat(seg.index);
            Join(before + PartsOf(seg)) == if before == [] then suffix else Join(before) + "|" + suffix
  {
    if seg.branch.Root? {
      JoinLast(before, FormatNat(seg.index));
    } else {
      JoinLastTwo(before, BranchName(seg.branch), FormatNat(seg.index));
    }
  }

  lemma JoinLast(before: seq<string>, p: string)
    ensures Join(before + [p]) == if before == [] then p else Join(before) + "|" + p
  {
    if before != [] { JoinOneMore(before, p); } else { assert [] + [p] == [p]; }
  }

  lemma JoinLastTwo(before: seq<string>, p: string, q: string)
    ensures Join(before + [p, q]) == if before == [] then p + "|" + q else Join(before) + "|" + (p + "|" + q)
  {
    JoinLast(before, p);
    JoinOneMore(before + [p], q);
    assert before + [p, q] == before + [p] + [q];
    assert before != [] ==> Join(before) + "|" + p + "|" + q == Join(before) + "|" + (p + "|" + q);
  }
}
