/** A left-to-right search, given what each position captures and where the search resumes behind it. */
module Search {

  datatype Hit = Hit(names: seq<string>, next: nat)

  ghost predicate Progresses(t: seq<Hit>) {
    forall i | 0 <= i < |t| :: i < t[i].next <= |t|
  }

  /** Everything captured by the search from position i on. */
  ghost function Follow(t: seq<Hit>, i: nat): seq<string>
    requires Progresses(t) && i <= |t|
    decreases |t| - i
  {
    if i == |t| then [] else t[i].names + Follow(t, t[i].next)
  }

  /** u is the tail of t from `off` on. */
  ghost predicate IsTail(t: seq<Hit>, u: seq<Hit>, off: nat) {
    |t| == off + |u| && forall k | 0 <= k < |u| :: t[off + k] == Hit(u[k].names, off + u[k].next)
  }

  lemma {:induction false} FollowTail(t: seq<Hit>, u: seq<Hit>, off: nat, k: nat)
    requires Progresses(t) && Progresses(u) && IsTail(t, u, off) && k <= |u|
    ensures Follow(t, off + k) == Follow(u, k)
    decreases |u| - k
  {
    if k < |u| {
      FollowTail(t, u, off, u[k].next);
    }
  }

  /** Where both halves keep their hits the search finds what it finds in each. */
  lemma {:induction false} FollowBoth(t: seq<Hit>, a: seq<Hit>, b: seq<Hit>, i: nat)
    requires Progresses(t) && Progresses(a) && Progresses(b) && IsTail(t, b, |a|) && i <= |a|
    requires forall k | 0 <= k < |a| :: t[k] == a[k]
    ensures Follow(t, i) == Follow(a, i) + Follow(b, 0)
    decreases |a| - i
  {
    if i == |a| {
      FollowTail(t, b, |a|, 0);
    } else {
      FollowBoth(t, a, b, a[i].next);
    }
  }

  /** Where position `at` of the first half, from which that half finds nothing more, captures a name
      reaching into the second half up to `jump`. */
  lemma {:induction false} FollowAcross(t: seq<Hit>, a: seq<Hit>, b: seq<Hit>, i: nat, at: nat, name: string, jump: nat)
    requires Progresses(t) && Progresses(a) && Progresses(b) && IsTail(t, b, |a|) && i <= at < |a| && jump <= |b|
    requires forall k | 0 <= k < at :: t[k] == a[k] && a[k].next <= at
    requires t[at] == Hit([name], |a| + jump) && Follow(a, at) == []
    ensures Follow(t, i) == Follow(a, i) + [name] + Follow(b, jump)
    decreases at - i
  {
    if i == at {
      FollowTail(t, b, |a|, jump);
    } else {
      FollowAcross(t, a, b, a[i].next, at, name, jump);
      var here, more, rest := a[i].names, Follow(a, a[i].next), Follow(b, jump);
      assert Follow(t, i) == here + (more + [name] + rest);
      assert here + (more + [name] + rest) == here + more + [name] + rest;
    }
  }
}

/** add_pi_programs.py: a generator of supervisor blocks and the scan that must find them again. */
module PiConfig {
  import opened Wrappers
  import opened Sequences
  import opened Search

  datatype Program = Program(name: string, file: string, stdout: string)

  /** All six entries name their script and their log file after the program. */
  function Standard(name: string): Program {
    Program(name, name + ".py", name + ".out.log")
  }

  const PI_NAMES: seq<string> := ["pi_corpus_ingest", "pi_quarantine_reviewer", "pi_quarantine_promoter",
                                  "pi_flagged_review_api", "pi_harness_runner", "pi_scorer"]

  const PI_PROGRAMS: seq<Program> := seq(6, i requires 0 <= i < 6 => Standard(PI_NAMES[i]))

  function Lines(ls: seq<string>): string {
    if ls == [] then "" else ls[0] + "\n" + Lines(ls[1..])
  }

  function Settings(p: Program): seq<string> {
    ["command=" + ("python3 /home/workspace/zo_sentinel/" + p.file),
     "directory=/home/workspace/zo_sentinel",
     "autostart=true",
     "autorestart=true",
     "startretries=5",
     "redirect_stderr=true",
     "stdout_logfile=" + ("/home/workspace/logs/" + p.stdout),
     "stdout_logfile_maxbytes=5MB",
     "stdout_logfile_backups=3",
     "user=workspace"]
  }

  /** `program_block` */
  function ProgramBlock(p: Program): string {
    "[program:" + p.name + "]" + "\n" + Lines(Settings(p))
  }

  function Blocks(ps: seq<Program>): string {
    if ps == [] then "" else ProgramBlock(ps[0]) + Blocks(ps[1..])
  }

  // ----- the scan: re.findall(r'^\[program:(pi_[^\]]+)\]', content, re.MULTILINE) -----

  const HEAD := "[program:pi_"

  predicate LineStart(s: string, i: nat)
    requires i <= |s|
  {
    i == 0 || s[i - 1] == '\n'
  }

  predicate HeadAt(s: string, i: nat)
    requires i <= |s|
  {
    LineStart(s, i) && i + 12 <= |s| && s[i..i + 12] == HEAD
  }

  /** The first closing bracket at or after k; |s| if there is none. */
  function FirstClose(s: string, k: nat): (c: nat)
    requires k <= |s|
    ensures k <= c <= |s| && (c < |s| ==> s[c] == ']')
    ensures forall x | k <= x < c :: s[x] != ']'
    decreases |s| - k
  {
    if k == |s| || s[k] == ']' then k else FirstClose(s, k + 1)
  }

  /** A match begins at i: a header head, at least one more character, then the closing bracket. A line
      break may lie between them. */
  predicate MatchAt(s: string, i: nat)
    requires i <= |s|
  {
    HeadAt(s, i) && i + 12 < FirstClose(s, i + 12) < |s|
  }

  /** One step of the search at i: what is captured there, and where the search goes on. */
  function Captured(s: string, i: nat): seq<string>
    requires i < |s|
  {
    if MatchAt(s, i) then [s[i + 9..FirstClose(s, i + 12)]] else []
  }

  function Resume(s: string, i: nat): (next: nat)
    requires i < |s|
    ensures i < next <= |s|
  {
    if MatchAt(s, i) then FirstClose(s, i + 12) + 1 else i + 1
  }

  /** The captured names, from position i on. */
  function Scan(s: string, i: nat): seq<string>
    requires i <= |s|
    decreases |s| - i
  {
    if i == |s| then [] else Captured(s, i) + Scan(s, Resume(s, i))
  }

  /** The same search as a table of hits. */
  ghost function Table(s: string): (t: seq<Hit>)
    ensures |t| == |s| && forall i | 0 <= i < |s| :: t[i] == Hit(Captured(s, i), Resume(s, i))
    ensures Progresses(t)
  {
    seq(|s|, i requires 0 <= i < |s| => Hit(Captured(s, i), Resume(s, i)))
  }

  lemma {:induction false} ScanFollowsTable(s: string, i: nat)
    requires i <= |s|
    ensures Scan(s, i) == Follow(Table(s), i)
    decreases |s| - i
  {
    if i < |s| {
      ScanFollowsTable(s, Resume(s, i));
    }
  }

  function Names(s: string): seq<string> {
    Scan(s, 0)
  }

  /** A header that is never closed. */
  ghost predicate Dangling(s: string) {
    exists i: nat | i <= |s| :: DanglesAt(s, i)
  }

  predicate DanglesAt(s: string, i: nat)
    requires i <= |s|
  {
    HeadAt(s, i) && FirstClose(s, i + 12) == |s|
  }

  lemma CapturedHasForm(s: string, i: nat)
    requires i < |s| && MatchAt(s, i)
    ensures var name := s[i + 9..FirstClose(s, i + 12)]; |name| > 3 && "pi_" <= name && ']' !in name
  {
    var c := FirstClose(s, i + 12);
    var name := s[i + 9..c];
    assert HEAD[9..] == "pi_";
    assert name[..3] == s[i..i + 12][9..] == "pi_";
    forall k | 0 <= k < |name| ensures name[k] != ']' {
      if k < 3 {
        assert name[k] == "pi_"[k];
      } else {
        assert name[k] == s[i + 9 + k];
      }
    }
  }

  /** Every name that the scan finds begins with pi_, goes on, and has no bracket. */
  lemma {:induction false} NamesHaveForm(s: string, i: nat)
    requires i <= |s|
    ensures forall name | name in Scan(s, i) :: |name| > 3 && "pi_" <= name && ']' !in name
    decreases |s| - i
  {
    if i < |s| {
      NamesHaveForm(s, Resume(s, i));
      if MatchAt(s, i) {
        CapturedHasForm(s, i);
      }
    }
  }

  // ----- the program -----

  function Needed(content: string, wanted: seq<Program>): seq<Program> {
    if wanted == [] then [] else
      (if wanted[0].name in Names(content) then [] else [wanted[0]]) + Needed(content, wanted[1..])
  }

  function Padded(content: string): string {
    if content != "" && content[|content| - 1] == '\n' then content else content + "\n"
  }

  function Rewritten(content: string, wanted: seq<Program>): string {
    var needed := Needed(content, wanted);
    if needed == [] then content else Padded(content) + ("\n" + Blocks(needed))
  }

  /** The comprehension of line 73. */
  method FindNeeded(content: string, wanted: seq<Program>) returns (needed: seq<Program>)
    ensures needed == Needed(content, wanted)
  {
    var existing := Names(content);
    needed := [];
    assert wanted[0..] == wanted;
    for i := 0 to |wanted|
      invariant needed + Needed(content, wanted[i..]) == Needed(content, wanted)
    {
      NeededStep(content, wanted, i);
      if wanted[i].name !in existing {
        needed := needed + [wanted[i]];
      }
    }
    assert wanted[|wanted|..] == [] && needed + [] == needed;
  }

  class ConfigFile {
    var content: string
    var writes: nat

    constructor (text: string)
      ensures content == text && writes == 0
    {
      content, writes := text, 0;
    }

    /** `main`: nothing is written when nothing is needed. */
    method AddPrograms(wanted: seq<Program>)
      modifies this
      ensures content == Rewritten(old(content), wanted)
      ensures writes == old(writes) + if Needed(old(content), wanted) == [] then 0 else 1
    {
      var needed := FindNeeded(content, wanted);
      if needed == [] {
        return;
      }
      var newBlocks := Blocks(needed);
      var text := content;
      if !(text != "" && text[|text| - 1] == '\n') {
        text := text + "\n";
      }
      text := text + ("\n" + newBlocks);
      content := text;
      writes := writes + 1;
    }
  }

  lemma NeededStep(content: string, wanted: seq<Program>, i: nat)
    requires i < |wanted|
    ensures Needed(content, wanted[i..])
         == (if wanted[i].name in Names(content) then [] else [wanted[i]]) + Needed(content, wanted[i + 1..])
  {
    assert wanted[i..][1..] == wanted[i + 1..];
  }

  // ----- the scan on a concatenation -----

  ghost predicate EndsLine(a: string) {
    a == "" || a[|a| - 1] == '\n'
  }

  lemma CloseRight(a: string, b: string, k: nat)
    requires k <= |b|
    ensures FirstClose(a + b, |a| + k) == |a| + FirstClose(b, k)
  {
    var c := FirstClose(a + b, |a| + k);
    var d := FirstClose(b, k);
    assert forall x | 0 <= x < |b| :: (a + b)[|a| + x] == b[x];
  }

  lemma CloseLeft(a: string, b: string, k: nat)
    requires k <= |a|
    ensures FirstClose(a, k) < |a| ==> FirstClose(a + b, k) == FirstClose(a, k)
    ensures FirstClose(a, k) == |a| ==> FirstClose(a + b, k) == |a| + FirstClose(b, 0)
  {
    assert forall x | 0 <= x < |a| :: (a + b)[x] == a[x];
    assert forall x | 0 <= x < |b| :: (a + b)[|a| + x] == b[x];
  }

  lemma HeadRight(a: string, b: string, k: nat)
    requires EndsLine(a) && k <= |b|
    ensures HeadAt(a + b, |a| + k) == HeadAt(b, k)
  {
    if k + 12 <= |b| {
      assert (a + b)[|a| + k..|a| + k + 12] == b[k..k + 12];
    }
  }

  lemma HeadLeft(a: string, b: string, i: nat)
    requires EndsLine(a) && i < |a|
    ensures HeadAt(a + b, i) == HeadAt(a, i)
    ensures HeadAt(a, i) ==> i + 12 < |a|
  {
    if i + 12 <= |a| {
      assert (a + b)[i..i + 12] == a[i..i + 12];
      if HeadAt(a, i) {
        assert a[i + 11] == a[i..i + 12][11] == HEAD[11];
      }
    } else if HeadAt(a + b, i) {
      var k := |a| - 1 - i;
      assert (a + b)[i..i + 12][k] == (a + b)[|a| - 1] == '\n';
      assert HEAD[k] == (a + b)[i..i + 12][k];
      NoBreakInHead(k);
    }
  }

  lemma NoBreakInHead(k: nat)
    requires k < 12
    ensures HEAD[k] != '\n' && HEAD[k] != ']'
  {
  }

  lemma SliceRight(a: string, b: string, from: nat, to: nat)
    requires from <= to <= |b|
    ensures (a + b)[|a| + from..|a| + to] == b[from..to]
  {
  }

  lemma StepRight(a: string, b: string, k: nat)
    requires EndsLine(a) && k < |b|
    ensures Captured(a + b, |a| + k) == Captured(b, k) && Resume(a + b, |a| + k) == |a| + Resume(b, k)
  {
    HeadRight(a, b, k);
    if HeadAt(b, k) {
      CloseRight(a, b, k + 12);
      if MatchAt(b, k) {
        var c := FirstClose(b, k + 12);
        SliceRight(a, b, k + 9, c);
      }
    }
  }

  lemma StepLeft(a: string, b: string, i: nat)
    requires EndsLine(a) && i < |a| && !DanglesAt(a, i)
    ensures Captured(a + b, i) == Captured(a, i) && Resume(a + b, i) == Resume(a, i)
  {
    HeadLeft(a, b, i);
    if HeadAt(a, i) {
      CloseLeft(a, b, i + 12);
      if MatchAt(a, i) {
        var c := FirstClose(a, i + 12);
        assert (a + b)[i + 9..c] == a[i + 9..c];
      }
    }
  }

  lemma StepSwallows(a: string, b: string, i: nat) returns (swallowed: string)
    requires EndsLine(a) && i < |a| && DanglesAt(a, i) && FirstClose(b, 0) < |b|
    ensures Captured(a + b, i) == [swallowed] && Resume(a + b, i) == |a| + FirstClose(b, 0) + 1
    ensures '\n' in swallowed
  {
    HeadLeft(a, b, i);
    CloseLeft(a, b, i + 12);
    var c := |a| + FirstClose(b, 0);
    swallowed := (a + b)[i + 9..c];
    assert swallowed[|a| - 1 - (i + 9)] == (a + b)[|a| - 1] == '\n';
  }

  lemma TailTable(a: string, b: string)
    requires EndsLine(a)
    ensures IsTail(Table(a + b), Table(b), |a|)
  {
    forall k | 0 <= k < |b| ensures Table(a + b)[|a| + k] == Hit(Captured(b, k), |a| + Resume(b, k)) {
      StepRight(a, b, k);
    }
  }

  /** Without a dangling header the scan of a text is the scan of its parts. */
  lemma NamesConcat(a: string, b: string)
    requires EndsLine(a) && !Dangling(a)
    ensures Names(a + b) == Names(a) + Names(b)
  {
    ScanFollowsTable(a + b, 0);
    ScanFollowsTable(a, 0);
    ScanFollowsTable(b, 0);
    TailTable(a, b);
    forall k | 0 <= k < |a| ensures Table(a + b)[k] == Table(a)[k] {
      assert !DanglesAt(a, k);
      StepLeft(a, b, k);
    }
    FollowBoth(Table(a + b), Table(a), Table(b), 0);
  }

  lemma {:induction false} ScanWithoutClose(a: string, i: nat, k: nat)
    requires i <= k <= |a| && DanglesAt(a, i)
    ensures Scan(a, k) == []
    decreases |a| - k
  {
    if k < |a| {
      ScanWithoutClose(a, i, k + 1);
    }
  }

  lemma FirstDangling(a: string, i: nat) returns (at: nat)
    requires i <= |a| && DanglesAt(a, i)
    ensures at <= |a| && DanglesAt(a, at) && forall k | 0 <= k < at :: !DanglesAt(a, k)
  {
    at := 0;
    while !DanglesAt(a, at)
      invariant at <= i && forall k | 0 <= k < at :: !DanglesAt(a, k)
      decreases i - at
    {
      at := at + 1;
    }
  }

  /** A dangling header swallows the text up to the next closing bracket into one captured name. */
  lemma NamesSwallowed(a: string, b: string) returns (swallowed: string)
    requires EndsLine(a) && Dangling(a) && FirstClose(b, 0) < |b|
    ensures Names(a + b) == Names(a) + [swallowed] + Scan(b, FirstClose(b, 0) + 1)
    ensures '\n' in swallowed
  {
    var i: nat :| i <= |a| && DanglesAt(a, i);
    var at := FirstDangling(a, i);
    swallowed := StepSwallows(a, b, at);
    TailTable(a, b);
    StepsBefore(a, b, at);
    ScanWithoutClose(a, at, at);
    ScanFollowsTable(a, at);
    ScanFollowsTable(a + b, 0);
    ScanFollowsTable(a, 0);
    ScanFollowsTable(b, FirstClose(b, 0) + 1);
    FollowAcross(Table(a + b), Table(a), Table(b), 0, at, swallowed, FirstClose(b, 0) + 1);
  }

  lemma StepsBefore(a: string, b: string, at: nat)
    requires EndsLine(a) && at < |a| && DanglesAt(a, at) && forall k | 0 <= k < at :: !DanglesAt(a, k)
    ensures forall k | 0 <= k < at :: Table(a + b)[k] == Table(a)[k] && Resume(a, k) <= at
  {
    forall k | 0 <= k < at ensures Table(a + b)[k] == Table(a)[k] && Resume(a, k) <= at {
      StepLeft(a, b, k);
      ResumeBeforeDangling(a, k, at);
    }
  }

  lemma ResumeBeforeDangling(a: string, i: nat, at: nat)
    requires i < at < |a| && DanglesAt(a, at)
    ensures Resume(a, i) <= at
  {
    if MatchAt(a, i) {
      CloseBeforeDangling(a, i, at);
    }
  }

  lemma CloseBeforeDangling(a: string, i: nat, at: nat)
    requires i <= at <= |a| && DanglesAt(a, at) && MatchAt(a, i)
    ensures FirstClose(a, i + 12) < at
  {
    var c := FirstClose(a, i + 12);
    if at <= c < at + 12 {
      assert a[at..at + 12][c - at] == ']';
      NoBreakInHead(c - at);
    }
  }

  // ----- what the generated blocks contain -----

  /** What lets a block be read back: a pi_ name without bracket, and no line break inside a field. */
  predicate PlainName(name: string) {
    |name| > 3 && name[..3] == "pi_" && ']' !in name && '\n' !in name
  }

  predicate WellFormed(p: Program) {
    PlainName(p.name) && '\n' !in p.file && '\n' !in p.stdout
  }

  function NamesOf(ps: seq<Program>): (names: seq<string>)
    ensures |names| == |ps| && forall i | 0 <= i < |ps| :: names[i] == ps[i].name
  {
    seq(|ps|, i requires 0 <= i < |ps| => ps[i].name)
  }

  lemma StandardIsWellFormed(name: string)
    requires PlainName(name)
    ensures WellFormed(Standard(name))
  {
  }

  lemma ShortNamesArePlain()
    ensures PlainName(PI_NAMES[0]) && PlainName(PI_NAMES[4]) && PlainName(PI_NAMES[5])
  {
  }

  lemma LongNamesArePlain()
    ensures PlainName(PI_NAMES[1]) && PlainName(PI_NAMES[2]) && PlainName(PI_NAMES[3])
  {
  }

  lemma NamesDiffer()
    ensures Distinct(PI_NAMES)
  {
    assert |PI_NAMES[0]| == 16 && |PI_NAMES[1]| == 22 && |PI_NAMES[2]| == 22;
    assert |PI_NAMES[3]| == 21 && |PI_NAMES[4]| == 17 && |PI_NAMES[5]| == 9;
    assert PI_NAMES[1][14] == 'r' && PI_NAMES[2][14] == 'p';
  }

  /** The six programs the script installs meet it, and their names differ. */
  lemma ProgramsAreWellFormed()
    ensures forall p | p in PI_PROGRAMS :: WellFormed(p)
    ensures Distinct(NamesOf(PI_PROGRAMS))
  {
    ShortNamesArePlain();
    LongNamesArePlain();
    NamesDiffer();
    forall i | 0 <= i < 6 ensures WellFormed(PI_PROGRAMS[i]) {
      StandardIsWellFormed(PI_NAMES[i]);
    }
    assert NamesOf(PI_PROGRAMS) == PI_NAMES;
  }

  lemma Parts(pre: string, h: string, rest: string, post: string, t: string)
    requires t == pre + h + rest + "]" + post && |h| == 12
    ensures var i, c := |pre|, |pre| + 12 + |rest|;
            c < |t| && t[..i] == pre && t[i..i + 12] == h && t[i + 12..c] == rest && t[c] == ']'
  {
  }

  lemma FirstCloseIs(t: string, k: nat, c: nat)
    requires k <= c < |t| && t[c] == ']' && ']' !in t[k..c]
    ensures FirstClose(t, k) == c
  {
    forall x | k <= x < c ensures t[x] != ']' {
      assert t[x] == t[k..c][x - k];
    }
  }

  lemma MatchIs(t: string, i: nat, c: nat)
    requires i + 12 < c < |t| && LineStart(t, i) && t[i..i + 12] == HEAD && FirstClose(t, i + 12) == c
    ensures MatchAt(t, i) && Captured(t, i) == [t[i + 9..c]]
  {
  }

  lemma HeaderMatches(t: string, i: nat, rest: string)
    requires i + 12 + |rest| < |t| && LineStart(t, i) && rest != "" && ']' !in rest
    requires t[i..i + 12] == HEAD && t[i + 12..i + 12 + |rest|] == rest && t[i + 12 + |rest|] == ']'
    ensures MatchAt(t, i) && FirstClose(t, i + 12) == i + 12 + |rest|
    ensures Captured(t, i) == ["pi_" + rest]
  {
    var c := i + 12 + |rest|;
    FirstCloseIs(t, i + 12, c);
    MatchIs(t, i, c);
    CapturedIs(t, i, c, rest);
  }

  lemma CapturedIs(t: string, i: nat, c: nat, rest: string)
    requires i + 12 <= c <= |t| && t[i..i + 12] == HEAD && t[i + 12..c] == rest
    ensures t[i + 9..c] == "pi_" + rest
  {
    assert t[i + 9..c] == t[i..i + 12][9..] + t[i + 12..c];
    assert HEAD[9..] == "pi_";
  }

  lemma NameSplits(name: string)
    requires PlainName(name)
    ensures name == "pi_" + name[3..] && name[3..] != "" && ']' !in name[3..]
    ensures "[program:" + name + "]" == HEAD + name[3..] + "]"
  {
    assert "[program:" + "pi_" == HEAD;
  }

  lemma {:induction false} ScanNothing(s: string, i: nat)
    requires i <= |s| && forall k | i <= k < |s| :: !HeadAt(s, k)
    ensures Scan(s, i) == []
    decreases |s| - i
  {
    if i < |s| {
      ScanNothing(s, i + 1);
    }
  }

  lemma HeadBeginsWithBracket(s: string, k: nat)
    requires k <= |s|
    ensures HeadAt(s, k) ==> k + 12 <= |s| && s[k] == '['
  {
    if HeadAt(s, k) {
      assert s[k] == s[k..k + 12][0] == HEAD[0];
    }
  }

  /** A text whose only line break is its last character has a header at most at its start. */
  lemma NoHeadInside(t: string, k: nat)
    requires t != "" && 0 < k <= |t| && '\n' !in t[..|t| - 1]
    ensures !HeadAt(t, k)
  {
    assert k < |t| ==> t[k - 1] == t[..|t| - 1][k - 1] != '\n';
  }

  lemma PlainLine(l: string)
    requires '\n' !in l && (l == "" || l[0] != '[')
    ensures Names(l + "\n") == [] && !Dangling(l + "\n")
  {
    var t := l + "\n";
    assert t[..|t| - 1] == l;
    forall k | 0 <= k <= |t| ensures !HeadAt(t, k) {
      if k == 0 {
        HeadBeginsWithBracket(t, 0);
      } else {
        NoHeadInside(t, k);
      }
    }
    ScanNothing(t, 0);
  }

  lemma HeaderLine(name: string)
    requires PlainName(name)
    ensures var h := "[program:" + name + "]" + "\n"; Names(h) == [name] && !Dangling(h)
  {
    NameSplits(name);
    var h := "[program:" + name + "]" + "\n";
    Parts("", HEAD, name[3..], "\n", h);
    HeaderMatches(h, 0, name[3..]);
    assert h[..|h| - 1] == "[program:" + name + "]";
    forall k | 0 < k <= |h| ensures !HeadAt(h, k) {
      NoHeadInside(h, k);
    }
    ScanNothing(h, Resume(h, 0));
  }

  lemma DanglesOnTheRight(a: string, b: string, i: nat)
    requires EndsLine(a) && |a| <= i <= |a + b|
    ensures DanglesAt(a + b, i) == DanglesAt(b, i - |a|)
  {
    HeadRight(a, b, i - |a|);
    if HeadAt(b, i - |a|) {
      CloseRight(a, b, i - |a| + 12);
    }
  }

  lemma DanglesOnTheLeft(a: string, b: string, i: nat)
    requires EndsLine(a) && i < |a|
    ensures DanglesAt(a + b, i) ==> DanglesAt(a, i) && FirstClose(b, 0) == |b|
  {
    HeadLeft(a, b, i);
    if HeadAt(a, i) {
      CloseLeft(a, b, i + 12);
    }
  }

  lemma DanglingConcat(a: string, b: string)
    requires EndsLine(a) && !Dangling(b) && (!Dangling(a) || FirstClose(b, 0) < |b|)
    ensures !Dangling(a + b)
  {
    forall i: nat | i <= |a + b| ensures !DanglesAt(a + b, i) {
      if i < |a| {
        DanglesOnTheLeft(a, b, i);
      } else {
        DanglesOnTheRight(a, b, i);
      }
    }
  }

  lemma JoinTexts(a: string, b: string)
    requires EndsLine(a) && EndsLine(b) && !Dangling(a) && !Dangling(b)
    ensures Names(a + b) == Names(a) + Names(b) && !Dangling(a + b) && EndsLine(a + b)
  {
    NamesConcat(a, b);
    DanglingConcat(a, b);
  }

  predicate Plain(l: string) {
    '\n' !in l && l != "" && l[0] != '['
  }

  lemma {:induction false} PlainLines(ls: seq<string>)
    requires forall l | l in ls :: Plain(l)
    ensures Names(Lines(ls)) == [] && !Dangling(Lines(ls)) && EndsLine(Lines(ls))
  {
    if ls != [] {
      assert ls[0] in ls && forall l | l in ls[1..] :: l in ls;
      PlainLine(ls[0]);
      PlainLines(ls[1..]);
      JoinTexts(ls[0] + "\n", Lines(ls[1..]));
    }
  }

  lemma PlainConcat(a: string, b: string)
    requires Plain(a) && '\n' !in b
    ensures Plain(a + b)
  {
  }

  lemma PlainCommand(file: string)
    requires '\n' !in file
    ensures Plain("command=" + ("python3 /home/workspace/zo_sentinel/" + file))
  {
    PlainConcat("python3 /home/workspace/zo_sentinel/", file);
    PlainConcat("command=", "python3 /home/workspace/zo_sentinel/" + file);
  }

  lemma PlainLogfile(stdout: string)
    requires '\n' !in stdout
    ensures Plain("stdout_logfile=" + ("/home/workspace/logs/" + stdout))
  {
    PlainConcat("/home/workspace/logs/", stdout);
    PlainConcat("stdout_logfile=", "/home/workspace/logs/" + stdout);
  }

  lemma PlainPaths(p: Program)
    requires WellFormed(p)
    ensures Plain(Settings(p)[0]) && Plain(Settings(p)[1]) && Plain(Settings(p)[6])
  {
    PlainCommand(p.file);
    PlainLogfile(p.stdout);
  }

  lemma PlainFlags(p: Program)
    ensures Plain(Settings(p)[2]) && Plain(Settings(p)[3]) && Plain(Settings(p)[4]) && Plain(Settings(p)[5])
  {
  }

  lemma PlainLimits(p: Program)
    ensures Plain(Settings(p)[7]) && Plain(Settings(p)[8]) && Plain(Settings(p)[9])
  {
  }

  lemma SettingsArePlain(p: Program)
    requires WellFormed(p)
    ensures forall l | l in Settings(p) :: Plain(l)
  {
    PlainPaths(p);
    PlainFlags(p);
    PlainLimits(p);
  }

  // ----- what the supervisor reads in a block -----

  ghost function LineEnd(text: string): (n: nat)
    ensures n <= |text| && '\n' !in text[..n] && (n < |text| ==> text[n] == '\n')
  {
    if text == "" || text[0] == '\n' then 0 else
      var n := LineEnd(text[1..]);
      assert text[..n + 1] == [text[0]] + text[1..][..n];
      n + 1
  }

  /** What follows "key=" on the first line that begins with it. */
  ghost function ValueOf(text: string, key: string): Option<string>
    decreases |text|
  {
    if text == "" then None else
      var n := LineEnd(text);
      if key + "=" <= text[..n] then Some(text[..n][|key| + 1..])
      else if n == |text| then None
      else ValueOf(text[n + 1..], key)
  }

  lemma {:induction false} LineEndIs(line: string, rest: string)
    requires '\n' !in line
    ensures LineEnd(line + "\n" + rest) == |line|
  {
    var text := line + "\n" + rest;
    if line == "" {
      assert text[0] == '\n';
    } else {
      assert text[0] == line[0] && line[0] in line;
      assert text[1..] == line[1..] + "\n" + rest;
      LineEndIs(line[1..], rest);
    }
  }

  lemma FirstLine(line: string, rest: string, key: string)
    requires '\n' !in line
    ensures ValueOf(line + "\n" + rest, key)
         == if key + "=" <= line then Some(line[|key| + 1..]) else ValueOf(rest, key)
  {
    var text := line + "\n" + rest;
    LineEndIs(line, rest);
    assert text[..|line|] == line && text[|line| + 1..] == rest;
  }

  lemma NextLine(ls: seq<string>, i: nat, key: string)
    requires i < |ls| && '\n' !in ls[i]
    ensures ValueOf(Lines(ls[i..]), key)
         == if key + "=" <= ls[i] then Some(ls[i][|key| + 1..]) else ValueOf(Lines(ls[i + 1..]), key)
  {
    assert ls[i..][1..] == ls[i + 1..];
    FirstLine(ls[i], Lines(ls[i + 1..]), key);
  }

  lemma HeaderHasNoValue(p: Program, key: string)
    requires WellFormed(p) && key != "" && key[0] != '['
    ensures ValueOf(ProgramBlock(p), key) == ValueOf(Lines(Settings(p)), key)
  {
    var header := "[program:" + p.name + "]";
    assert !(key + "=" <= header) by {
      assert header[0] == '[' && (key + "=")[0] == key[0];
    }
    FirstLine(header, Lines(Settings(p)), key);
  }

  lemma {:induction false} SkipLines(ls: seq<string>, i: nat, key: string)
    requires i <= |ls| && forall k | 0 <= k < i :: '\n' !in ls[k] && !(key + "=" <= ls[k])
    ensures ValueOf(Lines(ls), key) == ValueOf(Lines(ls[i..]), key)
  {
    if i == 0 {
      assert ls[0..] == ls;
    } else {
      SkipLines(ls, i - 1, key);
      NextLine(ls, i - 1, key);
    }
  }

  lemma ValueAt(ls: seq<string>, i: nat, key: string, value: string)
    requires (forall k | 0 <= k < |ls| :: Plain(ls[k])) && i < |ls|
    requires ls[i] == key + "=" + value && forall k | 0 <= k < i :: !(key + "=" <= ls[k])
    ensures ValueOf(Lines(ls), key) == Some(value)
  {
    SkipLines(ls, i, key);
    NextLine(ls, i, key);
    assert key + "=" <= key + "=" + value;
  }

  lemma CommandIsRead(p: Program)
    requires WellFormed(p)
    ensures ValueOf(ProgramBlock(p), "command") == Some("python3 /home/workspace/zo_sentinel/" + p.file)
  {
    SettingsArePlain(p);
    assert "command=" == "command" + "=";
    HeaderHasNoValue(p, "command");
    ValueAt(Settings(p), 0, "command", "python3 /home/workspace/zo_sentinel/" + p.file);
  }

  lemma LogfileIsRead(p: Program)
    requires WellFormed(p)
    ensures ValueOf(ProgramBlock(p), "stdout_logfile") == Some("/home/workspace/logs/" + p.stdout)
  {
    SettingsArePlain(p);
    assert "stdout_logfile=" == "stdout_logfile" + "=";
    HeaderHasNoValue(p, "stdout_logfile");
    NotTheLogfile(p);
    ValueAt(Settings(p), 6, "stdout_logfile", "/home/workspace/logs/" + p.stdout);
  }

  /** Of a generated block the supervisor runs the program's script and writes its output to the program's log file. */
  lemma BlockRunsTheProgram(p: Program)
    requires WellFormed(p)
    ensures ValueOf(ProgramBlock(p), "command") == Some("python3 /home/workspace/zo_sentinel/" + p.file)
    ensures ValueOf(ProgramBlock(p), "stdout_logfile") == Some("/home/workspace/logs/" + p.stdout)
  {
    CommandIsRead(p);
    LogfileIsRead(p);
  }

  /** ... both named after the program, for each of the six. */
  lemma InstalledProgramsRun(p: Program)
    requires p in PI_PROGRAMS
    ensures ValueOf(ProgramBlock(p), "command") == Some("python3 /home/workspace/zo_sentinel/" + (p.name + ".py"))
    ensures ValueOf(ProgramBlock(p), "stdout_logfile") == Some("/home/workspace/logs/" + (p.name + ".out.log"))
  {
    ProgramsAreWellFormed();
    BlockRunsTheProgram(p);
  }

  lemma OtherStart(l: string, at: nat)
    requires at < |l| && at < 14 && l[at] != "stdout_logfile"[at]
    ensures !("stdout_logfile" + "=" <= l)
  {
    assert ("stdout_logfile" + "=")[at] == "stdout_logfile"[at];
  }

  lemma NotTheLogfile(p: Program)
    ensures forall k | 0 <= k < 6 :: !("stdout_logfile" + "=" <= Settings(p)[k])
  {
    var ls := Settings(p);
    assert ls[0] == "command=" + ("python3 /home/workspace/zo_sentinel/" + p.file) && "command="[0] == 'c';
    assert ls[1] == "directory=/home/workspace/zo_sentinel";
    assert ls[2] == "autostart=true" && ls[3] == "autorestart=true";
    assert ls[4] == "startretries=5" && ls[5] == "redirect_stderr=true";
    OtherStart(ls[0], 0);
    OtherStart(ls[1], 0);
    OtherStart(ls[2], 0);
    OtherStart(ls[3], 0);
    OtherStart(ls[4], 2);
    OtherStart(ls[5], 0);
  }

  lemma BlockNames(p: Program)
    requires WellFormed(p)
    ensures Names(ProgramBlock(p)) == [p.name] && !Dangling(ProgramBlock(p)) && EndsLine(ProgramBlock(p))
  {
    HeaderLine(p.name);
    SettingsArePlain(p);
    PlainLines(Settings(p));
    JoinTexts("[program:" + p.name + "]" + "\n", Lines(Settings(p)));
  }

  /** The generated blocks scan back to exactly the names they were generated from. */
  lemma {:induction false} BlocksNames(ps: seq<Program>)
    requires forall p | p in ps :: WellFormed(p)
    ensures Names(Blocks(ps)) == NamesOf(ps) && !Dangling(Blocks(ps)) && EndsLine(Blocks(ps))
  {
    if ps != [] {
      assert ps[0] in ps && forall p | p in ps[1..] :: p in ps;
      BlockNames(ps[0]);
      BlocksNames(ps[1..]);
      JoinTexts(ProgramBlock(ps[0]), Blocks(ps[1..]));
      FirstName(ps);
    }
  }

  lemma FirstName(ps: seq<Program>)
    requires ps != []
    ensures NamesOf(ps) == [ps[0].name] + NamesOf(ps[1..])
  {
  }

  // ----- reading the rewritten file -----

  lemma HeadBeforeBreak(c: string, i: nat)
    requires i <= |c|
    ensures HeadAt(c + "\n", i) == HeadAt(c, i)
  {
    var t := c + "\n";
    if i + 12 <= |c| {
      assert t[i..i + 12] == c[i..i + 12];
    } else if i + 12 == |t| {
      assert t[i..i + 12][11] == '\n';
      NoBreakInHead(11);
    }
  }

  lemma StepBeforeBreak(c: string, i: nat)
    requires i < |c|
    ensures Captured(c + "\n", i) == Captured(c, i) && Resume(c + "\n", i) == Resume(c, i)
    ensures DanglesAt(c + "\n", i) == DanglesAt(c, i)
  {
    HeadBeforeBreak(c, i);
    if HeadAt(c, i) {
      CloseLeft(c, "\n", i + 12);
      if MatchAt(c, i) {
        var k := FirstClose(c, i + 12);
        assert (c + "\n")[i + 9..k] == c[i + 9..k];
      }
    }
  }

  lemma BreakAdded(c: string)
    ensures Names(c + "\n") == Names(c) && (Dangling(c + "\n") <==> Dangling(c))
  {
    var t := c + "\n";
    ScanFollowsTable(t, 0);
    ScanFollowsTable(c, 0);
    PlainLine("");
    ScanFollowsTable("\n", 0);
    assert "" + "\n" == "\n";
    forall i | 0 <= i < |c| ensures Table(t)[i] == Table(c)[i] {
      StepBeforeBreak(c, i);
    }
    assert IsTail(Table(t), Table("\n"), |c|);
    FollowBoth(Table(t), Table(c), Table("\n"), 0);
    if i: nat :| i <= |c| && DanglesAt(c, i) {
      StepBeforeBreak(c, i);
    }
    if i: nat :| i <= |t| && DanglesAt(t, i) {
      if i < |c| {
        StepBeforeBreak(c, i);
      }
    }
  }

  lemma PaddedIsTheSame(c: string)
    ensures Names(Padded(c)) == Names(c) && (Dangling(Padded(c)) <==> Dangling(c))
    ensures EndsLine(Padded(c)) && c <= Padded(c)
  {
    BreakAdded(c);
  }

  lemma AppendedNames(needed: seq<Program>)
    requires forall p | p in needed :: WellFormed(p)
    ensures Names("\n" + Blocks(needed)) == NamesOf(needed) && !Dangling("\n" + Blocks(needed))
  {
    PlainLine("");
    assert "" + "\n" == "\n";
    BlocksNames(needed);
    JoinTexts("\n", Blocks(needed));
  }

  lemma FirstHeaderParts(b: string, name: string, post: string, rest: string)
    requires PlainName(name) && rest == name[3..] && b == "\n" + ("[program:" + name + "]" + post)
    ensures 13 + |rest| < |b| && b[0] == '\n' && b[1..13] == HEAD && b[13..13 + |rest|] == rest && b[13 + |rest|] == ']'
    ensures ']' !in b[0..13 + |rest|]
  {
    NameSplits(name);
    assert b == "\n" + HEAD + rest + "]" + post;
    assert b[0..13 + |rest|] == "\n" + HEAD + rest;
  }

  lemma HeaderAfterBreak(b: string, name: string, post: string)
    requires PlainName(name) && b == "\n" + ("[program:" + name + "]" + post)
    ensures var c := FirstClose(b, 0); c < |b| && Scan(b, 0) == [name] + Scan(b, c + 1)
  {
    var rest := name[3..];
    FirstHeaderParts(b, name, post, rest);
    NameSplits(name);
    HeaderMatches(b, 1, rest);
    FirstCloseIs(b, 0, 13 + |rest|);
    ScanFromBreak(b, rest);
  }

  lemma ScanFromBreak(b: string, rest: string)
    requires |b| > 1 && b[0] == '\n' && MatchAt(b, 1) && Captured(b, 1) == ["pi_" + rest]
    ensures Scan(b, 0) == ["pi_" + rest] + Scan(b, Resume(b, 1))
  {
    HeadBeginsWithBracket(b, 0);
    assert Captured(b, 0) == [] && Resume(b, 0) == 1;
  }

  /** The first closing bracket of the appended text ends its first header. */
  lemma FirstHeaderCloses(needed: seq<Program>)
    requires needed != [] && forall p | p in needed :: WellFormed(p)
    ensures var b := "\n" + Blocks(needed); var c := FirstClose(b, 0);
            c < |b| && Scan(b, c + 1) == NamesOf(needed)[1..]
  {
    assert needed[0] in needed;
    var b, post := "\n" + Blocks(needed), "\n" + Lines(Settings(needed[0])) + Blocks(needed[1..]);
    FirstBlockSplits(needed);
    HeaderAfterBreak(b, needed[0].name, post);
    AppendedNames(needed);
  }

  lemma FirstBlockSplits(needed: seq<Program>)
    requires needed != []
    ensures Blocks(needed)
         == "[program:" + needed[0].name + "]" + ("\n" + Lines(Settings(needed[0])) + Blocks(needed[1..]))
  {
    var h, ls, more := "[program:" + needed[0].name + "]", Lines(Settings(needed[0])), Blocks(needed[1..]);
    assert h + "\n" + ls + more == h + ("\n" + ls + more);
  }

  lemma {:induction false} NeededIff(content: string, wanted: seq<Program>)
    ensures forall p :: p in Needed(content, wanted) <==> p in wanted && p.name !in Names(content)
    ensures Distinct(NamesOf(wanted)) ==> Distinct(NamesOf(Needed(content, wanted)))
  {
    if wanted != [] {
      NeededIff(content, wanted[1..]);
      assert wanted == [wanted[0]] + wanted[1..];
      if Distinct(NamesOf(wanted)) {
        DistinctNeeded(content, wanted);
      }
    }
  }

  lemma DistinctPrepend(x: string, xs: seq<string>)
    ensures Distinct([x] + xs) <==> Distinct(xs) && x !in xs
  {
    var all := [x] + xs;
    assert forall i | 0 <= i < |xs| :: all[i + 1] == xs[i];
    assert all[0] == x;
  }

  lemma NamedIn(ps: seq<Program>, qs: seq<Program>, name: string)
    requires name in NamesOf(ps) && forall p | p in ps :: p in qs
    ensures name in NamesOf(qs)
  {
    var i :| 0 <= i < |ps| && NamesOf(ps)[i] == name;
    assert ps[i] in ps;
    var j :| 0 <= j < |qs| && qs[j] == ps[i];
    assert NamesOf(qs)[j] == name;
  }

  lemma DistinctNeeded(content: string, wanted: seq<Program>)
    requires wanted != [] && Distinct(NamesOf(wanted))
    requires forall p :: p in Needed(content, wanted[1..]) <==> p in wanted[1..] && p.name !in Names(content)
    requires Distinct(NamesOf(wanted[1..])) ==> Distinct(NamesOf(Needed(content, wanted[1..])))
    ensures Distinct(NamesOf(Needed(content, wanted)))
  {
    var name, rest := wanted[0].name, Needed(content, wanted[1..]);
    FirstName(wanted);
    DistinctPrepend(name, NamesOf(wanted[1..]));
    DistinctPrepend(name, NamesOf(rest));
    if name in NamesOf(rest) {
      NamedIn(rest, wanted[1..], name);
    }
    if name !in Names(content) {
      FirstName([wanted[0]] + rest);
      assert ([wanted[0]] + rest)[1..] == rest;
    }
  }

  ghost predicate Installable(wanted: seq<Program>) {
    (forall p | p in wanted :: WellFormed(p)) && Distinct(NamesOf(wanted))
  }

  /** The old text is a prefix of the new one. */
  lemma OldTextKept(content: string, wanted: seq<Program>)
    ensures content <= Rewritten(content, wanted)
  {
    PaddedIsTheSame(content);
  }

  lemma RewrittenCleanly(content: string, wanted: seq<Program>)
    requires Installable(wanted) && !Dangling(content)
    ensures Names(Rewritten(content, wanted)) == Names(content) + NamesOf(Needed(content, wanted))
    ensures !Dangling(Rewritten(content, wanted))
  {
    var needed := Needed(content, wanted);
    NeededIff(content, wanted);
    if needed == [] {
      assert Names(content) + [] == Names(content);
    } else {
      PaddedIsTheSame(content);
      AppendedNames(needed);
      NamesConcat(Padded(content), "\n" + Blocks(needed));
      DanglingConcat(Padded(content), "\n" + Blocks(needed));
    }
  }

  /** With a dangling header the first appended name is lost to the scan; nothing dangles afterwards. */
  lemma RewrittenWithLoss(content: string, wanted: seq<Program>) returns (swallowed: string)
    requires Installable(wanted) && Dangling(content) && Needed(content, wanted) != []
    ensures Names(Rewritten(content, wanted)) == Names(content) + [swallowed] + NamesOf(Needed(content, wanted))[1..]
    ensures '\n' in swallowed && !Dangling(Rewritten(content, wanted))
  {
    var needed := Needed(content, wanted);
    NeededIff(content, wanted);
    PaddedIsTheSame(content);
    AppendedNames(needed);
    FirstHeaderCloses(needed);
    swallowed := NamesSwallowed(Padded(content), "\n" + Blocks(needed));
    DanglingConcat(Padded(content), "\n" + Blocks(needed));
  }

  /** Scanning the rewritten file gives the old names followed by exactly the needed ones if and only if no
      header of the old file is left open. */
  lemma AppendedNamesAreFoundIff(content: string, wanted: seq<Program>)
    requires Installable(wanted) && Needed(content, wanted) != []
    ensures Names(Rewritten(content, wanted)) == Names(content) + NamesOf(Needed(content, wanted))
       <==> !Dangling(content)
  {
    if !Dangling(content) {
      RewrittenCleanly(content, wanted);
    } else {
      var needed, old' := Needed(content, wanted), Names(content);
      var swallowed := RewrittenWithLoss(content, wanted);
      NeededIff(content, wanted);
      assert needed[0] in needed && '\n' !in needed[0].name;
      assert (old' + [swallowed] + NamesOf(needed)[1..])[|old'|] == swallowed;
      assert (old' + NamesOf(needed))[|old'|] == needed[0].name;
    }
  }

  lemma NothingNeededIff(content: string, wanted: seq<Program>)
    ensures Needed(content, wanted) == [] <==> forall p | p in wanted :: p.name in Names(content)
  {
    NeededIff(content, wanted);
    if Needed(content, wanted) != [] {
      assert Needed(content, wanted)[0] in Needed(content, wanted);
    }
  }

  lemma CleanRunInstallsAll(content: string, wanted: seq<Program>)
    requires Installable(wanted) && !Dangling(content)
    ensures Needed(Rewritten(content, wanted), wanted) == []
  {
    var needed := Needed(content, wanted);
    RewrittenCleanly(content, wanted);
    NeededIff(content, wanted);
    forall p | p in wanted ensures p.name in Names(Rewritten(content, wanted)) {
      if p.name !in Names(content) {
        var i :| 0 <= i < |needed| && needed[i] == p;
        assert NamesOf(needed)[i] == p.name;
      }
    }
    NothingNeededIff(Rewritten(content, wanted), wanted);
  }

  /** After a run everything wanted is present, so that a second run writes nothing, if and only if nothing
      was needed or no header was left open. */
  lemma SecondRunWritesNothingIff(content: string, wanted: seq<Program>)
    requires Installable(wanted)
    ensures Needed(Rewritten(content, wanted), wanted) == [] <==> Needed(content, wanted) == [] || !Dangling(content)
  {
    var needed := Needed(content, wanted);
    if !Dangling(content) {
      CleanRunInstallsAll(content, wanted);
    } else if needed != [] {
      var swallowed := RewrittenWithLoss(content, wanted);
      NeededIff(content, wanted);
      var p := needed[0];
      assert p in needed && '\n' !in p.name && p.name != swallowed;
      assert p.name !in NamesOf(needed)[1..] by {
        assert forall i | 1 <= i < |needed| :: NamesOf(needed)[i] != NamesOf(needed)[0];
      }
      assert p.name !in Names(Rewritten(content, wanted));
      NothingNeededIff(Rewritten(content, wanted), wanted);
    }
  }

  /** Whatever the file looked like, two runs install everything and a third changes nothing. */
  lemma TwoRunsSuffice(content: string, wanted: seq<Program>)
    requires Installable(wanted)
    ensures var twice := Rewritten(Rewritten(content, wanted), wanted);
            Needed(twice, wanted) == [] && Rewritten(twice, wanted) == twice
  {
    var once := Rewritten(content, wanted);
    if Dangling(content) && Needed(content, wanted) != [] {
      var swallowed := RewrittenWithLoss(content, wanted);
      CleanRunInstallsAll(once, wanted);
    } else {
      SecondRunWritesNothingIff(content, wanted);
    }
  }

  /** Every header is closed on its own line. */
  ghost predicate HeadersCloseOnTheirLine(s: string) {
    forall i: nat | i <= |s| && HeadAt(s, i) ::
      exists c: nat :: i + 12 <= c < |s| && s[c] == ']' && '\n' !in s[i + 12..c]
  }

  /** The usual shape of such a file leaves no header open. */
  lemma ClosedHeadersDoNotDangle(s: string)
    requires HeadersCloseOnTheirLine(s)
    ensures !Dangling(s)
  {
    forall i: nat | i <= |s| ensures !DanglesAt(s, i) {
      if HeadAt(s, i) {
        var c: nat :| i + 12 <= c < |s| && s[c] == ']' && '\n' !in s[i + 12..c];
      }
    }
  }

  /** An unclosed header alone is enough to lose a program. */
  lemma OpenHeaderLosesAProgram()
    ensures Dangling(HEAD) && Needed(HEAD, PI_PROGRAMS) != []
    ensures Needed(Rewritten(HEAD, PI_PROGRAMS), PI_PROGRAMS) != []
  {
    assert HEAD[0..12] == HEAD;
    assert DanglesAt(HEAD, 0);
    ScanWithoutClose(HEAD, 0, 0);
    NothingNeededIff(HEAD, PI_PROGRAMS);
    assert PI_PROGRAMS[0] in PI_PROGRAMS;
    ProgramsAreWellFormed();
    SecondRunWritesNothingIff(HEAD, PI_PROGRAMS);
  }
}
