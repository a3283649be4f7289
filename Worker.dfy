/** One iteration of `worker_thread`: expand a popped directory.

    The Win32 enumeration (`FindFirstFileW`/`FindNextFileW`) becomes an
    input listing of entries, and each allocation the step makes (the
    copy of a child path and its queue node) an input flag, so the step is
    deterministic.  Its effect is specified by `DirTally`, a function of
    the criteria, the directory, the listing and the allocation flags. */
module Worker {
  import opened WideStr
  import opened Matcher
  import opened Paths
  import opened WorkQueue

  /** A directory entry as the enumeration reports it: its name and the
      FILE_ATTRIBUTE_DIRECTORY and FILE_ATTRIBUTE_REPARSE_POINT bits. */
  datatype Entry = Entry(name: WStr, isDir: bool, isReparse: bool)

  /** The enumeration of a pattern: it fails (an invalid handle) or
      yields the entries in order. */
  datatype Listing = EnumFailed | Listed(entries: seq<Entry>)

  /** Whether the copy of a child path (`wcsdup_heap`) and its queue
      node could be allocated. */
  datatype Alloc = Alloc(copyOk: bool, nodeOk: bool)

  /** The run's match settings. */
  datatype Criteria = Criteria(needle: WStr, extcsv: WStr, matchFullPath: bool)

  /** What expanding directories contributes: the child directories
      pushed, the counts of files scanned and found, and the lines
      written to the output, all in enumeration order. */
  datatype Tally = Tally(pushed: seq<WStr>, files: int, found: int, matches: seq<WStr>)

  function NoTally(): Tally { Tally([], 0, 0, []) }

  function Plus(a: Tally, b: Tally): Tally {
    Tally(a.pushed + b.pushed, a.files + b.files, a.found + b.found, a.matches + b.matches)
  }

  /** The string the needle is searched in: the full path, or its last
      component. */
  function Target(c: Criteria, full: WStr): seq<char> {
    if c.matchFullPath then full else BaseName(full)
  }

  /** An entry is looked at when it is not "." or ".." and its child
      path fits the buffer. */
  predicate Examined(dir: WStr, e: Entry) {
    !IsDotOrDotDot(e.name) && JoinFits(dir, e.name, BufCap)
  }

  /** A directory that is walked into: a directory that is not a reparse
      point (junctions and symbolic links are never followed). */
  predicate IsPlainSubdir(e: Entry) {
    e.isDir && !e.isReparse
  }

  /** The file test of the loop: the extension filter on the entry's
      name, then the needle in the full path or its last component. */
  predicate FileHit(c: Criteria, name: WStr, path: WStr) {
    ExtensionAllowed(name, c.extcsv) && Occurs(Target(c, path), c.needle)
  }

  /** The file test applied to an entry of `dir`. */
  predicate IsFileMatch(c: Criteria, dir: WStr, e: Entry) {
    FileHit(c, e.name, Joined(dir, e.name))
  }

  /** The effect of one entry of the `do ... while` body, given the
      entry's file-test verdict `hit`. */
  function EntryTally(dir: WStr, e: Entry, a: Alloc, hit: bool): Tally {
    if !Examined(dir, e) then NoTally()
    else if e.isDir then
      if IsPlainSubdir(e) && a.copyOk && a.nodeOk then Tally([Joined(dir, e.name)], 0, 0, [])
      else NoTally()
    else if hit then Tally([], 1, 1, [Joined(dir, e.name)])
    else Tally([], 1, 0, [])
  }

  /** The effect of the entries `es`, taken in order, with their
      allocation outcomes and file-test verdicts. */
  function ScanTally(dir: WStr, es: seq<Entry>, allocs: seq<Alloc>, hits: seq<bool>): Tally
    requires |allocs| == |es| && |hits| == |es|
    decreases |es|
  {
    if es == [] then NoTally()
    else
      var n := |es| - 1;
      Plus(ScanTally(dir, es[..n], allocs[..n], hits[..n]), EntryTally(dir, es[n], allocs[n], hits[n]))
  }

  /** The file-test verdict of each entry. */
  function Verdicts(c: Criteria, dir: WStr, es: seq<Entry>): seq<bool> {
    seq(|es|, i requires 0 <= i < |es| => IsFileMatch(c, dir, es[i]))
  }

  /** The enumeration behind `listing` can be walked with `allocs`. */
  predicate AllocsFit(listing: Listing, allocs: seq<Alloc>) {
    listing.Listed? ==> |allocs| == |listing.entries|
  }

  /** The effect of expanding `dir`: nothing when the pattern does not
      fit or the enumeration fails, otherwise that of its entries. */
  function DirTally(c: Criteria, dir: WStr, listing: Listing, allocs: seq<Alloc>): Tally
    requires AllocsFit(listing, allocs)
  {
    if !GlobFits(dir, BufCap) then NoTally()
    else match listing
      case EnumFailed => NoTally()
      case Listed(es) => ScanTally(dir, es, allocs, Verdicts(c, dir, es))
  }

  /** What the worker loop advances: `files_scanned`, `found`, the lines
      written to the output, and the queue's pending directories. */
  datatype Stats = Stats(files: int, found: int, output: seq<WStr>, pending: seq<WStr>)

  /** `k` advanced by the tally `t`. */
  function After(k: Stats, t: Tally): Stats {
    Stats(k.files + t.files, k.found + t.found, k.output + t.matches, k.pending + t.pushed)
  }

  /** Advancing by two tallies in turn is advancing by their sum. */
  lemma AfterPlus(k: Stats, a: Tally, b: Tally)
    ensures After(After(k, a), b) == After(k, Plus(a, b))
  {
    assert k.output + a.matches + b.matches == k.output + (a.matches + b.matches);
    assert k.pending + a.pushed + b.pushed == k.pending + (a.pushed + b.pushed);
  }

  /** The shared context: match settings, counters, the output lines and
      the queue.  The counters are LONG64 values updated with interlocked
      increments in the source; here each update is one step. */
  class Ctx {
    const needle: WStr
    const extcsv: WStr
    const matchFullPath: bool
    var found: int
    var dirsScanned: int
    var filesScanned: int
    var output: seq<WStr>
    const q: WorkQ

    function Settings(): Criteria {
      Criteria(needle, extcsv, matchFullPath)
    }

    /** The counters, the output and the pending queue together. */
    function Snapshot(): Stats
      reads this, q
    {
      Stats(filesScanned, found, output, q.pending)
    }

    /** The fields `wmain` sets before starting the workers. */
    constructor (q: WorkQ, needle: WStr, extcsv: WStr, matchFullPath: bool)
      ensures this.q == q && Settings() == Criteria(needle, extcsv, matchFullPath)
      ensures found == 0 && dirsScanned == 0 && filesScanned == 0 && output == []
    {
      this.q := q;
      this.needle := needle;
      this.extcsv := extcsv;
      this.matchFullPath := matchFullPath;
      found, dirsScanned, filesScanned, output := 0, 0, 0, [];
    }
  }

  /** The file test as the loop runs it: `ext_allowed` on the entry's
      name, then `wcontains_i` on the full path or on what
      `basename_ptr` finds in it. */
  method MatchFile(c: Criteria, name: WStr, path: WStr) returns (hit: bool)
    ensures hit == FileHit(c, name, path)
  {
    var allowed := ExtAllowed(name, c.extcsv);
    if !allowed {
      return false;
    }
    var target: WStr;
    if c.matchFullPath {
      target := path;
    } else {
      var k := BasenamePtr(path);
      target := path[k..];
    }
    hit := ContainsIgnoringCase(target, c.needle);
  }

  /** An examined directory entry: its child path is pushed unless the
      entry is a reparse point or the copy of the path could not be
      allocated (`wq_push_owned` then decides on the node). */
  method TakeSubdir(ctx: Ctx, dir: WStr, path: WStr, e: Entry, a: Alloc)
    requires Examined(dir, e) && e.isDir && path == Joined(dir, e.name)
    modifies ctx.q
    ensures ctx.Snapshot() == After(old(ctx.Snapshot()), EntryTally(dir, e, a, false))
    ensures ctx.q.active == old(ctx.q.active) && ctx.q.stop == old(ctx.q.stop)
  {
    if e.isReparse {
      return;
    }
    if a.copyOk {
      ctx.q.PushOwned(path, a.nodeOk);
    }
  }

  /** An examined file entry: counted as scanned, then counted and
      written out when it passes the file test. */
  method TakeFile(ctx: Ctx, dir: WStr, path: WStr, e: Entry, a: Alloc)
    requires Examined(dir, e) && !e.isDir && path == Joined(dir, e.name)
    modifies ctx
    ensures ctx.Snapshot() == After(old(ctx.Snapshot()), EntryTally(dir, e, a, IsFileMatch(ctx.Settings(), dir, e)))
    ensures ctx.dirsScanned == old(ctx.dirsScanned)
  {
    ctx.filesScanned := ctx.filesScanned + 1;
    var hit := MatchFile(ctx.Settings(), e.name, path);
    ghost var t := EntryTally(dir, e, a, hit);
    assert t == if hit then Tally([], 1, 1, [path]) else Tally([], 1, 0, []);
    if hit {
      ctx.found := ctx.found + 1;
      ctx.output := ctx.output + [path];
    }
    assert ctx.q.pending + t.pushed == ctx.q.pending;
  }

  /** One entry of the enumeration loop (lines 234-262). */
  method ProcessEntry(ctx: Ctx, full: array<char>, dir: WStr, e: Entry, a: Alloc)
    requires full.Length == BufCap
    modifies ctx, ctx.q, full
    ensures ctx.Snapshot() == After(old(ctx.Snapshot()), EntryTally(dir, e, a, IsFileMatch(ctx.Settings(), dir, e)))
    ensures ctx.dirsScanned == old(ctx.dirsScanned)
    ensures ctx.q.active == old(ctx.q.active) && ctx.q.stop == old(ctx.q.stop)
  {
    if IsDotOrDotDot(e.name) {
      return;
    }
    var joined := JoinPath(full, dir, e.name);
    if !joined {
      return;
    }
    ghost var child := Joined(dir, e.name);
    assert full[|child|] == '\0';
    var path := ReadCString(full);
    ReadBack(full, child, path);
    if e.isDir {
      TakeSubdir(ctx, dir, path, e, a);
    } else {
      TakeFile(ctx, dir, path, e, a);
    }
  }

  /** The `do ... while` loop over the entries of one enumeration. */
  method ScanEntries(ctx: Ctx, full: array<char>, dir: WStr, es: seq<Entry>, allocs: seq<Alloc>)
    requires full.Length == BufCap && |allocs| == |es|
    modifies ctx, ctx.q, full
    ensures ctx.Snapshot() == After(old(ctx.Snapshot()), ScanTally(dir, es, allocs, Verdicts(ctx.Settings(), dir, es)))
    ensures ctx.dirsScanned == old(ctx.dirsScanned)
    ensures ctx.q.active == old(ctx.q.active) && ctx.q.stop == old(ctx.q.stop)
  {
    ghost var start := ctx.Snapshot();
    ghost var hits := Verdicts(ctx.Settings(), dir, es);
    var i := 0;
    while i < |es|
      invariant 0 <= i <= |es|
      invariant ctx.Snapshot() == After(start, ScanTally(dir, es[..i], allocs[..i], hits[..i]))
      invariant ctx.dirsScanned == old(ctx.dirsScanned)
      invariant ctx.q.active == old(ctx.q.active) && ctx.q.stop == old(ctx.q.stop)
    {
      ProcessEntry(ctx, full, dir, es[i], allocs[i]);
      ScanTallyPrefix(dir, es, allocs, hits, i);
      AfterPlus(start, ScanTally(dir, es[..i], allocs[..i], hits[..i]), EntryTally(dir, es[i], allocs[i], hits[i]));
      i := i + 1;
    }
    assert es[..i] == es && allocs[..i] == allocs && hits[..i] == hits;
  }

  /** The body of one iteration of `worker_thread` after `wq_pop` handed
      out `dir` (lines 217-268): counts the directory, builds its
      pattern, walks its entries, and calls `wq_done_one` exactly once on
      each of the three ways out, so `active` drops by one. */
  method ProcessDir(ctx: Ctx, glob: array<char>, full: array<char>, dir: WStr,
                    listing: Listing, allocs: seq<Alloc>)
    requires glob.Length == BufCap && full.Length == BufCap && glob != full
    requires AllocsFit(listing, allocs)
    modifies ctx, ctx.q, glob, full
    ensures ctx.dirsScanned == old(ctx.dirsScanned) + 1
    ensures ctx.Snapshot() == After(old(ctx.Snapshot()), DirTally(ctx.Settings(), dir, listing, allocs))
    ensures ctx.q.active == old(ctx.q.active) - 1 && ctx.q.stop == old(ctx.q.stop)
  {
    ctx.dirsScanned := ctx.dirsScanned + 1;
    var globOk := MakeGlob(glob, dir);
    if !globOk {
      ctx.q.DoneOne();
      return;
    }
    if listing.EnumFailed? {
      ctx.q.DoneOne();
      return;
    }
    ScanEntries(ctx, full, dir, listing.entries, allocs);
    ctx.q.DoneOne();
  }

  /** One whole iteration of the `for (;;)` loop of `worker_thread`: pop,
      and expand what was handed out.  `fs` gives each directory's
      enumeration and `allocs` its allocation outcomes.  A worker that
      gets a directory leaves `active` as it found it. */
  method WorkerIteration(ctx: Ctx, glob: array<char>, full: array<char>,
                         fs: WStr -> Listing, allocs: WStr -> seq<Alloc>)
    returns (r: PopResult)
    requires glob.Length == BufCap && full.Length == BufCap && glob != full
    requires forall d: WStr :: AllocsFit(fs(d), allocs(d))
    modifies ctx, ctx.q, glob, full
    ensures r == PopStep(old(ctx.q.State())).result
    ensures !r.Item? ==> ctx.q.State() == PopStep(old(ctx.q.State())).next
    ensures !r.Item? ==>
              ctx.dirsScanned == old(ctx.dirsScanned) && ctx.Snapshot() == old(ctx.Snapshot())
    ensures r.Item? ==>
              (ctx.dirsScanned == old(ctx.dirsScanned) + 1 &&
               ctx.q.active == old(ctx.q.active) && !ctx.q.stop &&
               ctx.Snapshot() == After(old(ctx.Snapshot()).(pending := old(ctx.q.pending)[1..]),
                                       DirTally(ctx.Settings(), r.dir, fs(r.dir), allocs(r.dir))))
    ensures ctx.q.State() == Run(old(ctx.q.State()), IterationOps(old(ctx.q.State()), fs, allocs))
  {
    ghost var s := ctx.q.State();
    r := ctx.q.Pop();
    if r.Item? {
      ProcessDir(ctx, glob, full, r.dir, fs(r.dir), allocs(r.dir));
    }
    IterationSegment(ctx.Settings(), s, 0, fs, allocs, []);
  }

  // ---------------------------------------------------------------------
  // The queue operations of one iteration

  /** The push an entry makes: an examined plain subdirectory whose path
      was copied calls `wq_push_owned`, which keeps it when its node is
      allocated. */
  function EntryOps(dir: WStr, e: Entry, a: Alloc): seq<Op> {
    if Examined(dir, e) && IsPlainSubdir(e) && a.copyOk then [PushOp(Joined(dir, e.name), a.nodeOk)]
    else []
  }

  /** The pushes of the entries `es`, in order. */
  function ScanOps(dir: WStr, es: seq<Entry>, allocs: seq<Alloc>): seq<Op>
    requires |allocs| == |es|
    decreases |es|
  {
    if es == [] then []
    else
      var n := |es| - 1;
      ScanOps(dir, es[..n], allocs[..n]) + EntryOps(dir, es[n], allocs[n])
  }

  /** The pushes of expanding `dir`. */
  function DirOps(dir: WStr, listing: Listing, allocs: seq<Alloc>): seq<Op>
    requires AllocsFit(listing, allocs)
  {
    if !GlobFits(dir, BufCap) then []
    else match listing
      case EnumFailed => []
      case Listed(es) => ScanOps(dir, es, allocs)
  }

  /** The queue calls of one iteration of `worker_thread` from queue
      state `s`: the pop, then, when it handed out a directory, that
      directory's pushes and one `wq_done_one`. */
  function IterationOps(s: QState, fs: WStr -> Listing, allocs: WStr -> seq<Alloc>): seq<Op>
    requires forall d: WStr :: AllocsFit(fs(d), allocs(d))
  {
    var o := PopStep(s);
    if o.result.Item? then [PopOp] + DirOps(o.result.dir, fs(o.result.dir), allocs(o.result.dir)) + [DoneOp]
    else [PopOp]
  }

  /** An entry only pushes, and it pushes what its tally says. */
  lemma EntryOpsPushes(dir: WStr, e: Entry, a: Alloc, hit: bool)
    ensures OnlyPushes(EntryOps(dir, e, a))
    ensures Pushed(EntryOps(dir, e, a)) == EntryTally(dir, e, a, hit).pushed
  {
    var ops := EntryOps(dir, e, a);
    if ops != [] {
      assert ops[1..] == [];
    }
  }

  /** The scan only pushes, and it pushes what its tally says. */
  lemma {:induction false} ScanOpsPushes(dir: WStr, es: seq<Entry>, allocs: seq<Alloc>, hits: seq<bool>)
    requires |allocs| == |es| && |hits| == |es|
    ensures OnlyPushes(ScanOps(dir, es, allocs))
    ensures Pushed(ScanOps(dir, es, allocs)) == ScanTally(dir, es, allocs, hits).pushed
    decreases |es|
  {
    if es != [] {
      var n := |es| - 1;
      ScanOpsPushes(dir, es[..n], allocs[..n], hits[..n]);
      EntryOpsPushes(dir, es[n], allocs[n], hits[n]);
      PushedAppend(ScanOps(dir, es[..n], allocs[..n]), EntryOps(dir, es[n], allocs[n]));
    }
  }

  /** Expanding a directory only pushes, and it pushes what `DirTally`
      says, whatever the criteria. */
  lemma DirOpsPushes(c: Criteria, dir: WStr, listing: Listing, allocs: seq<Alloc>)
    requires AllocsFit(listing, allocs)
    ensures OnlyPushes(DirOps(dir, listing, allocs))
    ensures Pushed(DirOps(dir, listing, allocs)) == DirTally(c, dir, listing, allocs).pushed
  {
    if GlobFits(dir, BufCap) && listing.Listed? {
      ScanOpsPushes(dir, listing.entries, allocs, Verdicts(c, dir, listing.entries));
    }
  }

  /** One iteration is a segment of a worker-disciplined run: its pushes
      and its `wq_done_one` come while the worker holds the directory it
      popped, and afterwards it holds as many as before.  The queue ends
      with the popped directory removed, its subdirectories appended and
      `active` as it was. */
  lemma IterationSegment(c: Criteria, s: QState, held: nat, fs: WStr -> Listing,
                         allocs: WStr -> seq<Alloc>, rest: seq<Op>)
    requires forall d: WStr :: AllocsFit(fs(d), allocs(d))
    ensures var ops := IterationOps(s, fs, allocs);
      WorkerRun(s, held, ops + rest) <==> WorkerRun(Run(s, ops), held, rest)
    ensures var o := PopStep(s);
      Run(s, IterationOps(s, fs, allocs)) ==
        if o.result.Item? then
          QState(o.next.pending + DirTally(c, o.result.dir, fs(o.result.dir), allocs(o.result.dir)).pushed,
                 s.active, false)
        else o.next
  {
    var o := PopStep(s);
    var ops := IterationOps(s, fs, allocs);
    if o.result.Item? {
      var d := o.result.dir;
      var dops := DirOps(d, fs(d), allocs(d));
      DirOpsPushes(c, d, fs(d), allocs(d));
      assert ops[0] == PopOp && ops[1..] == dops + [DoneOp];
      assert (ops + rest)[0] == PopOp && (ops + rest)[1..] == dops + ([DoneOp] + rest);
      RunPushes(o.next, held + 1, dops, [DoneOp] + rest);
      RunAppend(o.next, dops, [DoneOp]);
      assert ([DoneOp] + rest)[0] == DoneOp && ([DoneOp] + rest)[1..] == rest;
      assert [DoneOp][1..] == [];
    } else {
      assert ([PopOp] + rest)[0] == PopOp && ([PopOp] + rest)[1..] == rest;
      assert [PopOp][1..] == [];
    }
  }

  /** The queue state after one iteration from `s`. */
  function NextState(s: QState, fs: WStr -> Listing, allocs: WStr -> seq<Alloc>): QState
    requires forall d: WStr :: AllocsFit(fs(d), allocs(d))
  {
    Run(s, IterationOps(s, fs, allocs))
  }

  /** The queue calls of `n` iterations of one worker run alone from `s`. */
  function WalkOps(s: QState, fs: WStr -> Listing, allocs: WStr -> seq<Alloc>, n: nat): seq<Op>
    requires forall d: WStr :: AllocsFit(fs(d), allocs(d))
    decreases n
  {
    if n == 0 then []
    else IterationOps(s, fs, allocs) + WalkOps(NextState(s, fs, allocs), fs, allocs, n - 1)
  }

  /** The queue state after those `n` iterations. */
  function WalkEnd(s: QState, fs: WStr -> Listing, allocs: WStr -> seq<Alloc>, n: nat): QState
    requires forall d: WStr :: AllocsFit(fs(d), allocs(d))
    decreases n
  {
    if n == 0 then s else WalkEnd(NextState(s, fs, allocs), fs, allocs, n - 1)
  }

  /** How much `dirs_scanned` grows over those `n` iterations: once per
      directory handed out. */
  function WalkDirs(s: QState, fs: WStr -> Listing, allocs: WStr -> seq<Alloc>, n: nat): int
    requires forall d: WStr :: AllocsFit(fs(d), allocs(d))
    decreases n
  {
    if n == 0 then 0
    else (if PopStep(s).result.Item? then 1 else 0) + WalkDirs(NextState(s, fs, allocs), fs, allocs, n - 1)
  }

  /** What those `n` iterations add to the counters and the output: the
      tallies of the directories handed out, in order. */
  function WalkTally(c: Criteria, s: QState, fs: WStr -> Listing, allocs: WStr -> seq<Alloc>, n: nat): Tally
    requires forall d: WStr :: AllocsFit(fs(d), allocs(d))
    decreases n
  {
    if n == 0 then NoTally()
    else
      var o := PopStep(s);
      Plus(if o.result.Item? then DirTally(c, o.result.dir, fs(o.result.dir), allocs(o.result.dir))
           else NoTally(),
           WalkTally(c, NextState(s, fs, allocs), fs, allocs, n - 1))
  }

  /** `n` iterations are a worker-disciplined segment of the queue's run
      that ends in `WalkEnd`, holding as many directories as before. */
  lemma {:induction false} WalkSegment(s: QState, held: nat, fs: WStr -> Listing,
                                       allocs: WStr -> seq<Alloc>, n: nat, rest: seq<Op>)
    requires forall d: WStr :: AllocsFit(fs(d), allocs(d))
    ensures Run(s, WalkOps(s, fs, allocs, n)) == WalkEnd(s, fs, allocs, n)
    ensures WorkerRun(s, held, WalkOps(s, fs, allocs, n) + rest) <==>
            WorkerRun(WalkEnd(s, fs, allocs, n), held, rest)
    decreases n
  {
    if n == 0 {
      assert WalkOps(s, fs, allocs, n) + rest == rest;
    } else {
      var ops := IterationOps(s, fs, allocs);
      var t := NextState(s, fs, allocs);
      var tail := WalkOps(t, fs, allocs, n - 1);
      assert WalkOps(s, fs, allocs, n) + rest == ops + (tail + rest);
      IterationSegment(Criteria([], [], false), s, held, fs, allocs, tail + rest);
      WalkSegment(t, held, fs, allocs, n - 1, rest);
      RunAppend(s, ops, tail);
    }
  }

  // ---------------------------------------------------------------------
  // What a directory's expansion does

  /** Expanding a directory whose pattern does not fit, or whose
      enumeration fails, examines no entry. */
  lemma FailedDirectoryDoesNothing(c: Criteria, dir: WStr, listing: Listing, allocs: seq<Alloc>)
    requires AllocsFit(listing, allocs)
    requires !GlobFits(dir, BufCap) || listing.EnumFailed?
    ensures DirTally(c, dir, listing, allocs) == NoTally()
  {
  }

  /** The scan of the first `i + 1` entries is that of the first `i`
      followed by entry `i`. */
  lemma ScanTallyPrefix(dir: WStr, es: seq<Entry>, allocs: seq<Alloc>, hits: seq<bool>, i: nat)
    requires |allocs| == |es| && |hits| == |es| && i < |es|
    ensures ScanTally(dir, es[..i + 1], allocs[..i + 1], hits[..i + 1]) ==
            Plus(ScanTally(dir, es[..i], allocs[..i], hits[..i]), EntryTally(dir, es[i], allocs[i], hits[i]))
  {
    assert es[..i + 1][..i] == es[..i] && allocs[..i + 1][..i] == allocs[..i] &&
           hits[..i + 1][..i] == hits[..i];
  }

  /** `found` never outgrows `files_scanned`, and one output line is
      written per match. */
  lemma {:induction false} ScanCounts(dir: WStr, es: seq<Entry>, allocs: seq<Alloc>, hits: seq<bool>)
    requires |allocs| == |es| && |hits| == |es|
    ensures var t := ScanTally(dir, es, allocs, hits);
      0 <= t.found <= t.files && |t.matches| == t.found
    decreases |es|
  {
    if es != [] {
      var n := |es| - 1;
      ScanCounts(dir, es[..n], allocs[..n], hits[..n]);
    }
  }

  /** An entry that `files_scanned` counts: examined and not a directory. */
  predicate CountedFile(dir: WStr, e: Entry) {
    Examined(dir, e) && !e.isDir
  }

  /** The indices of the entries counted as scanned files. */
  function FileIndices(dir: WStr, es: seq<Entry>): set<int> {
    set i | 0 <= i < |es| && CountedFile(dir, es[i])
  }

  /** One more entry adds its index when it is counted. */
  lemma FileIndicesSnoc(dir: WStr, es: seq<Entry>)
    requires es != []
    ensures var n := |es| - 1;
      |FileIndices(dir, es)| == |FileIndices(dir, es[..n])| + (if CountedFile(dir, es[n]) then 1 else 0)
  {
    var n := |es| - 1;
    assert forall i | 0 <= i < n :: es[..n][i] == es[i];
    if CountedFile(dir, es[n]) {
      assert FileIndices(dir, es) == FileIndices(dir, es[..n]) + {n};
    } else {
      assert FileIndices(dir, es) == FileIndices(dir, es[..n]);
    }
  }

  /** `files_scanned` grows by one per entry that is examined and is not
      a directory, whatever the filters say. */
  lemma {:induction false} ScanFiles(dir: WStr, es: seq<Entry>, allocs: seq<Alloc>, hits: seq<bool>)
    requires |allocs| == |es| && |hits| == |es|
    ensures ScanTally(dir, es, allocs, hits).files == |FileIndices(dir, es)|
    decreases |es|
  {
    if es == [] {
      assert FileIndices(dir, es) == {};
    } else {
      var n := |es| - 1;
      ScanFiles(dir, es[..n], allocs[..n], hits[..n]);
      FileIndicesSnoc(dir, es);
    }
  }

  /** The indices of the entries whose file-test verdict is a hit. */
  function HitIndices(dir: WStr, es: seq<Entry>, hits: seq<bool>): set<int>
    requires |hits| == |es|
  {
    set i | 0 <= i < |es| && CountedFile(dir, es[i]) && hits[i]
  }

  /** One more entry adds its index when it is a counted hit. */
  lemma HitIndicesSnoc(dir: WStr, es: seq<Entry>, hits: seq<bool>)
    requires es != [] && |hits| == |es|
    ensures var n := |es| - 1;
      |HitIndices(dir, es, hits)| ==
      |HitIndices(dir, es[..n], hits[..n])| + (if CountedFile(dir, es[n]) && hits[n] then 1 else 0)
  {
    var n := |es| - 1;
    assert forall i | 0 <= i < n :: es[..n][i] == es[i] && hits[..n][i] == hits[i];
    if CountedFile(dir, es[n]) && hits[n] {
      assert HitIndices(dir, es, hits) == HitIndices(dir, es[..n], hits[..n]) + {n};
    } else {
      assert HitIndices(dir, es, hits) == HitIndices(dir, es[..n], hits[..n]);
    }
  }

  /** `found` grows by one per examined file entry whose verdict is a
      hit. */
  lemma {:induction false} ScanFound(dir: WStr, es: seq<Entry>, allocs: seq<Alloc>, hits: seq<bool>)
    requires |allocs| == |es| && |hits| == |es|
    ensures ScanTally(dir, es, allocs, hits).found == |HitIndices(dir, es, hits)|
    decreases |es|
  {
    if es == [] {
      assert HitIndices(dir, es, hits) == {};
    } else {
      var n := |es| - 1;
      ScanFound(dir, es[..n], allocs[..n], hits[..n]);
      HitIndicesSnoc(dir, es, hits);
    }
  }

  /** With the file test's own verdicts, the hits are the examined file
      entries that pass it. */
  lemma VerdictHits(c: Criteria, dir: WStr, es: seq<Entry>)
    ensures HitIndices(dir, es, Verdicts(c, dir, es)) ==
            set i | 0 <= i < |es| && CountedFile(dir, es[i]) && IsFileMatch(c, dir, es[i])
  {
  }

  /** An entry whose child path is pushed: an examined plain
      subdirectory whose copy and node are allocated. */
  predicate PushedEntry(dir: WStr, e: Entry, a: Alloc) {
    Examined(dir, e) && IsPlainSubdir(e) && a.copyOk && a.nodeOk
  }

  /** The indices of the entries that are pushed. */
  function PushIndices(dir: WStr, es: seq<Entry>, allocs: seq<Alloc>): set<int>
    requires |allocs| == |es|
  {
    set i | 0 <= i < |es| && PushedEntry(dir, es[i], allocs[i])
  }

  /** One more entry adds its index when it is pushed. */
  lemma PushIndicesSnoc(dir: WStr, es: seq<Entry>, allocs: seq<Alloc>)
    requires es != [] && |allocs| == |es|
    ensures var n := |es| - 1;
      |PushIndices(dir, es, allocs)| ==
      |PushIndices(dir, es[..n], allocs[..n])| + (if PushedEntry(dir, es[n], allocs[n]) then 1 else 0)
  {
    var n := |es| - 1;
    assert forall i | 0 <= i < n :: es[..n][i] == es[i] && allocs[..n][i] == allocs[i];
    if PushedEntry(dir, es[n], allocs[n]) {
      assert PushIndices(dir, es, allocs) == PushIndices(dir, es[..n], allocs[..n]) + {n};
    } else {
      assert PushIndices(dir, es, allocs) == PushIndices(dir, es[..n], allocs[..n]);
    }
  }

  /** One path is pushed per examined plain subdirectory whose copy and
      node are allocated. */
  lemma {:induction false} ScanPushedCount(dir: WStr, es: seq<Entry>, allocs: seq<Alloc>, hits: seq<bool>)
    requires |allocs| == |es| && |hits| == |es|
    ensures |ScanTally(dir, es, allocs, hits).pushed| == |PushIndices(dir, es, allocs)|
    decreases |es|
  {
    if es == [] {
      assert PushIndices(dir, es, allocs) == {};
    } else {
      var n := |es| - 1;
      ScanPushedCount(dir, es[..n], allocs[..n], hits[..n]);
      PushIndicesSnoc(dir, es, allocs);
    }
  }

  /** Each path in `pushed` is the child path of a plain subdirectory
      entry of `es` that is examined and whose copy and node were
      allocated. */
  predicate PushedFromSubdirs(dir: WStr, es: seq<Entry>, allocs: seq<Alloc>, pushed: seq<WStr>)
    requires |allocs| == |es|
  {
    forall p | p in pushed :: exists i | 0 <= i < |es| ::
      Examined(dir, es[i]) && IsPlainSubdir(es[i]) && allocs[i].copyOk && allocs[i].nodeOk &&
      p == Joined(dir, es[i].name)
  }

  /** Each examined plain subdirectory entry of `es` whose copy and node
      are allocated has its child path in `pushed`. */
  predicate SubdirsPushed(dir: WStr, es: seq<Entry>, allocs: seq<Alloc>, pushed: seq<WStr>)
    requires |allocs| == |es|
  {
    forall i | 0 <= i < |es| && Examined(dir, es[i]) && IsPlainSubdir(es[i]) &&
               allocs[i].copyOk && allocs[i].nodeOk ::
      Joined(dir, es[i].name) in pushed
  }

  /** Each line in `matches` is the child path of an examined file entry
      of `es` whose verdict is a hit. */
  predicate MatchesFromHits(dir: WStr, es: seq<Entry>, hits: seq<bool>, matches: seq<WStr>)
    requires |hits| == |es|
  {
    forall p | p in matches :: exists i | 0 <= i < |es| ::
      Examined(dir, es[i]) && !es[i].isDir && hits[i] && p == Joined(dir, es[i].name)
  }

  /** Each examined file entry of `es` whose verdict is a hit has its
      child path in `matches`. */
  predicate HitsMatched(dir: WStr, es: seq<Entry>, hits: seq<bool>, matches: seq<WStr>)
    requires |hits| == |es|
  {
    forall i | 0 <= i < |es| && Examined(dir, es[i]) && !es[i].isDir && hits[i] ::
      Joined(dir, es[i].name) in matches
  }

  /** A pushed path is the child path of a plain subdirectory entry whose
      copy and node were allocated: reparse points, "." and "..", entries
      whose path does not fit and entries whose allocation failed are
      never pushed. */
  lemma {:induction false} ScanPushedSound(dir: WStr, es: seq<Entry>, allocs: seq<Alloc>, hits: seq<bool>)
    requires |allocs| == |es| && |hits| == |es|
    ensures PushedFromSubdirs(dir, es, allocs, ScanTally(dir, es, allocs, hits).pushed)
    decreases |es|
  {
    if es != [] {
      var n := |es| - 1;
      var t0 := ScanTally(dir, es[..n], allocs[..n], hits[..n]);
      var t := ScanTally(dir, es, allocs, hits);
      ScanPushedSound(dir, es[..n], allocs[..n], hits[..n]);
      forall p | p in t.pushed ensures exists i | 0 <= i < |es| ::
        Examined(dir, es[i]) && IsPlainSubdir(es[i]) && allocs[i].copyOk && allocs[i].nodeOk &&
        p == Joined(dir, es[i].name)
      {
        if p in t0.pushed {
          var i :| 0 <= i < |es[..n]| && Examined(dir, es[..n][i]) && IsPlainSubdir(es[..n][i]) &&
            allocs[..n][i].copyOk && allocs[..n][i].nodeOk && p == Joined(dir, es[..n][i].name);
          assert es[..n][i] == es[i] && allocs[..n][i] == allocs[i];
        } else {
          assert p == Joined(dir, es[n].name);
        }
      }
    }
  }

  /** Every plain subdirectory entry that is examined and whose copy and
      node are allocated is pushed. */
  lemma {:induction false} ScanPushedComplete(dir: WStr, es: seq<Entry>, allocs: seq<Alloc>, hits: seq<bool>)
    requires |allocs| == |es| && |hits| == |es|
    ensures SubdirsPushed(dir, es, allocs, ScanTally(dir, es, allocs, hits).pushed)
    decreases |es|
  {
    if es != [] {
      var n := |es| - 1;
      var t0 := ScanTally(dir, es[..n], allocs[..n], hits[..n]);
      var t := ScanTally(dir, es, allocs, hits);
      ScanPushedComplete(dir, es[..n], allocs[..n], hits[..n]);
      forall i | 0 <= i < |es| && Examined(dir, es[i]) && IsPlainSubdir(es[i]) &&
                 allocs[i].copyOk && allocs[i].nodeOk
        ensures Joined(dir, es[i].name) in t.pushed
      {
        if i < n {
          assert es[..n][i] == es[i] && allocs[..n][i] == allocs[i];
          assert Joined(dir, es[i].name) in t0.pushed;
        }
      }
    }
  }

  /** An output line is the child path of an examined file entry whose
      verdict is a hit. */
  lemma {:induction false} ScanMatchesSound(dir: WStr, es: seq<Entry>, allocs: seq<Alloc>, hits: seq<bool>)
    requires |allocs| == |es| && |hits| == |es|
    ensures MatchesFromHits(dir, es, hits, ScanTally(dir, es, allocs, hits).matches)
    decreases |es|
  {
    if es != [] {
      var n := |es| - 1;
      var t0 := ScanTally(dir, es[..n], allocs[..n], hits[..n]);
      var t := ScanTally(dir, es, allocs, hits);
      ScanMatchesSound(dir, es[..n], allocs[..n], hits[..n]);
      forall p | p in t.matches ensures exists i | 0 <= i < |es| ::
        Examined(dir, es[i]) && !es[i].isDir && hits[i] && p == Joined(dir, es[i].name)
      {
        if p in t0.matches {
          var i :| 0 <= i < |es[..n]| && Examined(dir, es[..n][i]) && !es[..n][i].isDir &&
            hits[..n][i] && p == Joined(dir, es[..n][i].name);
          assert es[..n][i] == es[i] && hits[..n][i] == hits[i];
        } else {
          assert p == Joined(dir, es[n].name);
        }
      }
    }
  }

  /** Every examined file entry whose verdict is a hit is reported. */
  lemma {:induction false} ScanMatchesComplete(dir: WStr, es: seq<Entry>, allocs: seq<Alloc>, hits: seq<bool>)
    requires |allocs| == |es| && |hits| == |es|
    ensures HitsMatched(dir, es, hits, ScanTally(dir, es, allocs, hits).matches)
    decreases |es|
  {
    if es != [] {
      var n := |es| - 1;
      var t0 := ScanTally(dir, es[..n], allocs[..n], hits[..n]);
      var t := ScanTally(dir, es, allocs, hits);
      ScanMatchesComplete(dir, es[..n], allocs[..n], hits[..n]);
      forall i | 0 <= i < |es| && Examined(dir, es[i]) && !es[i].isDir && hits[i]
        ensures Joined(dir, es[i].name) in t.matches
      {
        if i < n {
          assert es[..n][i] == es[i] && hits[..n][i] == hits[i];
          assert Joined(dir, es[i].name) in t0.matches;
        }
      }
    }
  }

  /** What expanding a directory whose pattern fits reports: one line
      per examined file entry that passes the file test, each the child
      path of such an entry and every such entry's path among them; and
      one push per examined plain subdirectory whose copy and node are
      allocated, each the child path of such an entry and every such
      entry's path among them.  `files` counts the examined file entries
      and `found` the lines written. */
  lemma DirReport(c: Criteria, dir: WStr, es: seq<Entry>, allocs: seq<Alloc>)
    requires |allocs| == |es| && GlobFits(dir, BufCap)
    ensures var t := DirTally(c, dir, Listed(es), allocs);
      t.found <= t.files && |t.matches| == t.found && t.files == |FileIndices(dir, es)| &&
      t.found == |set i | 0 <= i < |es| && CountedFile(dir, es[i]) && IsFileMatch(c, dir, es[i])| &&
      |t.pushed| == |PushIndices(dir, es, allocs)| &&
      PushedFromSubdirs(dir, es, allocs, t.pushed) && SubdirsPushed(dir, es, allocs, t.pushed) &&
      (forall p | p in t.matches :: exists i | 0 <= i < |es| ::
         Examined(dir, es[i]) && !es[i].isDir && IsFileMatch(c, dir, es[i]) &&
         p == Joined(dir, es[i].name)) &&
      (forall i | 0 <= i < |es| && Examined(dir, es[i]) && !es[i].isDir && IsFileMatch(c, dir, es[i]) ::
         Joined(dir, es[i].name) in t.matches)
  {
    var hits := Verdicts(c, dir, es);
    ScanCounts(dir, es, allocs, hits);
    ScanFiles(dir, es, allocs, hits);
    ScanFound(dir, es, allocs, hits);
    VerdictHits(c, dir, es);
    ScanPushedCount(dir, es, allocs, hits);
    ScanPushedSound(dir, es, allocs, hits);
    ScanPushedComplete(dir, es, allocs, hits);
    ScanMatchesSound(dir, es, allocs, hits);
    ScanMatchesComplete(dir, es, allocs, hits);
  }

  /** In basename mode the needle is looked for in the entry's own name,
      since names reported by the enumeration hold no separator. */
  lemma BasenameModeMatchesName(c: Criteria, dir: WStr, e: Entry)
    requires !c.matchFullPath
    requires forall j | 0 <= j < |e.name| :: !IsSep(e.name[j])
    ensures IsFileMatch(c, dir, e) <==> ExtensionAllowed(e.name, c.extcsv) && Occurs(e.name, c.needle)
  {
    BaseNameOfJoined(dir, e.name);
  }

  // ---------------------------------------------------------------------
  // The two-level example tree

  /** An empty needle and an empty filter match every file, in either
      mode. */
  lemma EmptyCriteriaMatchEverything(c: Criteria, dir: WStr, e: Entry)
    requires c.needle == [] && c.extcsv == []
    ensures IsFileMatch(c, dir, e)
  {
  }

  // The example tree: the root C:\r holds "a.txt", the directory "sub"
  // and the usual "." and ".."; "sub" holds "b.txt" and "link", a
  // reparse point back to the root.  With an empty needle and no filter
  // both files pass the file test (`EmptyCriteriaMatchEverything`).

  /** "." and ".." of the root add nothing, whatever the file test says. */
  lemma ExampleDotsSkipped(h: bool)
    ensures EntryTally("C:\\r", Entry(".", true, false), Alloc(true, true), h) == NoTally()
    ensures EntryTally("C:\\r", Entry("..", true, false), Alloc(true, true), h) == NoTally()
  {
  }

  /** "sub" is pushed as its child path. */
  lemma ExampleSubdirPushed(h: bool)
    ensures EntryTally("C:\\r", Entry("sub", true, false), Alloc(true, true), h) ==
            Tally(["C:\\r\\sub"], 0, 0, [])
  {
    assert Joined("C:\\r", "sub") == "C:\\r\\sub";
  }

  /** A failed allocation of the copy or of the node drops "sub". */
  lemma ExampleSubdirDropped(h: bool)
    ensures EntryTally("C:\\r", Entry("sub", true, false), Alloc(false, true), h) == NoTally()
    ensures EntryTally("C:\\r", Entry("sub", true, false), Alloc(true, false), h) == NoTally()
  {
  }

  /** The reparse point "link" is not followed, so the walk does not loop
      back to the root. */
  lemma ExampleLinkNotFollowed(h: bool)
    ensures EntryTally("C:\\r\\sub", Entry("link", true, true), Alloc(true, true), h) == NoTally()
  {
  }

  /** The scan of four entries, spelled out. */
  lemma ScanTallyFour(dir: WStr, es: seq<Entry>, allocs: seq<Alloc>, hits: seq<bool>)
    requires |es| == 4 && |allocs| == 4 && |hits| == 4
    ensures ScanTally(dir, es, allocs, hits) ==
            Plus(Plus(Plus(Plus(NoTally(), EntryTally(dir, es[0], allocs[0], hits[0])),
                           EntryTally(dir, es[1], allocs[1], hits[1])),
                      EntryTally(dir, es[2], allocs[2], hits[2])),
                 EntryTally(dir, es[3], allocs[3], hits[3]))
  {
    assert ScanTally(dir, es[..1], allocs[..1], hits[..1]) ==
           Plus(NoTally(), EntryTally(dir, es[0], allocs[0], hits[0])) by {
      ScanTallyPrefix(dir, es, allocs, hits, 0);
      assert es[..0] == [];
    }
    assert ScanTally(dir, es[..2], allocs[..2], hits[..2]) ==
           Plus(ScanTally(dir, es[..1], allocs[..1], hits[..1]), EntryTally(dir, es[1], allocs[1], hits[1])) by {
      ScanTallyPrefix(dir, es, allocs, hits, 1);
    }
    assert ScanTally(dir, es[..3], allocs[..3], hits[..3]) ==
           Plus(ScanTally(dir, es[..2], allocs[..2], hits[..2]), EntryTally(dir, es[2], allocs[2], hits[2])) by {
      ScanTallyPrefix(dir, es, allocs, hits, 2);
    }
    assert ScanTally(dir, es, allocs, hits) ==
           Plus(ScanTally(dir, es[..3], allocs[..3], hits[..3]), EntryTally(dir, es[3], allocs[3], hits[3]));
  }

  /** Every allocation of a four-entry listing succeeds. */
  function AllAllocated(): seq<Alloc> {
    [Alloc(true, true), Alloc(true, true), Alloc(true, true), Alloc(true, true)]
  }

  /** A directory path shorter than MAX_PATH leaves room for its pattern. */
  lemma ShortDirFits(dir: WStr)
    requires |dir| < MaxPath
    ensures GlobFits(dir, BufCap)
  {
  }

  /** The file-test verdicts under an empty needle and an empty filter
      all pass. */
  lemma EmptyCriteriaVerdicts(c: Criteria, dir: WStr, es: seq<Entry>)
    requires c.needle == [] && c.extcsv == []
    ensures forall i | 0 <= i < |es| :: Verdicts(c, dir, es)[i]
  {
  }

  /** "a.txt" of the root is counted and reported with its child path. */
  lemma ExampleRootFileReported()
    ensures EntryTally("C:\\r", Entry("a.txt", false, false), Alloc(true, true), true) ==
            Tally([], 1, 1, ["C:\\r\\a.txt"])
  {
    assert Joined("C:\\r", "a.txt") == "C:\\r\\a.txt";
  }

  /** The scan of ".", "..", a file `f` and a directory `d` (a reparse
      point when `r`), every allocation succeeding and `f` a hit. */
  lemma ScanFileAndDir(dir: WStr, f: WStr, d: WStr, r: bool, hits: seq<bool>)
    requires |dir| < MaxPath && |f| < MaxPath && |d| < MaxPath
    requires !IsDotOrDotDot(f) && !IsDotOrDotDot(d)
    requires |hits| == 4 && hits[2]
    ensures ScanTally(dir, [Entry(".", true, false), Entry("..", true, false),
                            Entry(f, false, false), Entry(d, true, r)], AllAllocated(), hits) ==
            Tally(if r then [] else [Joined(dir, d)], 1, 1, [Joined(dir, f)])
  {
    var es := [Entry(".", true, false), Entry("..", true, false),
               Entry(f, false, false), Entry(d, true, r)];
    var al := AllAllocated();
    assert EntryTally(dir, es[0], al[0], hits[0]) == NoTally();
    assert EntryTally(dir, es[1], al[1], hits[1]) == NoTally();
    assert EntryTally(dir, es[2], al[2], hits[2]) == Tally([], 1, 1, [Joined(dir, f)]) by {
      assert JoinFits(dir, f, BufCap);
    }
    assert EntryTally(dir, es[3], al[3], hits[3]) ==
           Tally(if r then [] else [Joined(dir, d)], 0, 0, []) by {
      assert JoinFits(dir, d, BufCap);
    }
    ScanTallyFour(dir, es, al, hits);
  }

  /** A directory holding ".", "..", a file `f` and a directory `d`,
      expanded with an empty needle and no filter and every allocation
      succeeding: `f` is counted and reported, and `d` is pushed unless it
      is a reparse point (`r`). */
  lemma ExpandFileAndDir(c: Criteria, dir: WStr, f: WStr, d: WStr, r: bool)
    requires c.needle == [] && c.extcsv == []
    requires |dir| < MaxPath && |f| < MaxPath && |d| < MaxPath
    requires !IsDotOrDotDot(f) && !IsDotOrDotDot(d)
    ensures DirTally(c, dir, Listed([Entry(".", true, false), Entry("..", true, false),
                                     Entry(f, false, false), Entry(d, true, r)]),
                     AllAllocated()) ==
            Tally(if r then [] else [Joined(dir, d)], 1, 1, [Joined(dir, f)])
  {
    var es := [Entry(".", true, false), Entry("..", true, false),
               Entry(f, false, false), Entry(d, true, r)];
    EmptyCriteriaVerdicts(c, dir, es);
    ScanFileAndDir(dir, f, d, r, Verdicts(c, dir, es));
    ShortDirFits(dir);
  }

  /** The child paths the example walk produces. */
  const SubPath: WStr := "C:\\r\\sub"
  const RootFilePath: WStr := "C:\\r\\a.txt"
  const SubFilePath: WStr := "C:\\r\\sub\\b.txt"

  /** The separator `join_path` inserts between the example's names. */
  lemma ExampleChildPaths()
    ensures Joined("C:\\r", "a.txt") == RootFilePath
    ensures Joined("C:\\r", "sub") == SubPath
    ensures Joined(SubPath, "b.txt") == SubFilePath
  {
    assert Joined("C:\\r", "a.txt") == RootFilePath;
    assert Joined("C:\\r", "sub") == SubPath;
    assert Joined(SubPath, "b.txt") == SubFilePath;
  }

  /** Expanding the root C:\r with an empty needle and no filter, in
      either mode: "sub" is pushed, "a.txt" is counted and reported. */
  lemma ExampleRootExpanded(c: Criteria)
    requires c.needle == [] && c.extcsv == []
    ensures DirTally(c, "C:\\r",
                     Listed([Entry(".", true, false), Entry("..", true, false),
                             Entry("a.txt", false, false), Entry("sub", true, false)]),
                     AllAllocated()) ==
            Tally([SubPath], 1, 1, [RootFilePath])
  {
    ExpandFileAndDir(c, "C:\\r", "a.txt", "sub", false);
    ExampleChildPaths();
  }

  /** Expanding C:\r\sub the same way: "b.txt" is counted and reported,
      and the reparse point "link" back to the root is not pushed. */
  lemma ExampleSubExpanded(c: Criteria)
    requires c.needle == [] && c.extcsv == []
    ensures DirTally(c, SubPath,
                     Listed([Entry(".", true, false), Entry("..", true, false),
                             Entry("b.txt", false, false), Entry("link", true, true)]),
                     AllAllocated()) ==
            Tally([], 1, 1, [SubFilePath])
  {
    ExpandFileAndDir(c, SubPath, "b.txt", "link", true);
    ExampleChildPaths();
  }

  /** The enumeration of the example tree: C:\r and C:\r\sub as above,
      any other directory fails to enumerate. */
  function ExampleListing(d: WStr): Listing {
    if d == "C:\\r" then
      Listed([Entry(".", true, false), Entry("..", true, false),
              Entry("a.txt", false, false), Entry("sub", true, false)])
    else if d == SubPath then
      Listed([Entry(".", true, false), Entry("..", true, false),
              Entry("b.txt", false, false), Entry("link", true, true)])
    else EnumFailed
  }

  function ExampleAllocs(d: WStr): seq<Alloc> {
    if d == "C:\\r" || d == SubPath then AllAllocated() else []
  }

  lemma ExampleAllocsFit()
    ensures forall d: WStr :: AllocsFit(ExampleListing(d), ExampleAllocs(d))
  {
  }

  /** The main thread's seed: the root pushed onto a fresh queue. */
  function ExampleSeed(): QState {
    PushStep(Initial(), "C:\\r", true)
  }

  /** The first iteration expands the root and queues "sub". */
  lemma ExampleRootStep(c: Criteria)
    requires c.needle == [] && c.extcsv == []
    ensures PopStep(ExampleSeed()).result == Item("C:\\r")
    ensures DirTally(c, "C:\\r", ExampleListing("C:\\r"), ExampleAllocs("C:\\r")) ==
            Tally([SubPath], 1, 1, [RootFilePath])
    ensures NextState(ExampleSeed(), ExampleListing, ExampleAllocs) == QState([SubPath], 0, false)
  {
    ExampleAllocsFit();
    var s := ExampleSeed();
    assert s == QState(["C:\\r"], 0, false);
    assert PopStep(s) == PopOutcome(Item("C:\\r"), QState([], 1, false));
    assert ExampleListing("C:\\r") ==
           Listed([Entry(".", true, false), Entry("..", true, false),
                   Entry("a.txt", false, false), Entry("sub", true, false)]);
    assert ExampleAllocs("C:\\r") == AllAllocated();
    ExampleRootExpanded(c);
    IterationSegment(c, s, 0, ExampleListing, ExampleAllocs, []);
  }

  /** The second iteration expands "sub" and queues nothing. */
  lemma ExampleSubStep(c: Criteria)
    requires c.needle == [] && c.extcsv == []
    ensures PopStep(QState([SubPath], 0, false)).result == Item(SubPath)
    ensures DirTally(c, SubPath, ExampleListing(SubPath), ExampleAllocs(SubPath)) ==
            Tally([], 1, 1, [SubFilePath])
    ensures NextState(QState([SubPath], 0, false), ExampleListing, ExampleAllocs) == QState([], 0, false)
  {
    ExampleAllocsFit();
    var s := QState([SubPath], 0, false);
    assert PopStep(s) == PopOutcome(Item(SubPath), QState([], 1, false));
    assert ExampleListing(SubPath) ==
           Listed([Entry(".", true, false), Entry("..", true, false),
                   Entry("b.txt", false, false), Entry("link", true, true)]);
    assert ExampleAllocs(SubPath) == AllAllocated();
    ExampleSubExpanded(c);
    IterationSegment(c, s, 0, ExampleListing, ExampleAllocs, []);
  }

  /** The third pop finds nothing pending and nothing active, and stops. */
  lemma ExampleStopStep()
    ensures PopStep(QState([], 0, false)).result == Stop
    ensures NextState(QState([], 0, false), ExampleListing, ExampleAllocs) == QState([], 0, true)
  {
    ExampleAllocsFit();
    assert IterationOps(QState([], 0, false), ExampleListing, ExampleAllocs) == [PopOp];
    assert [PopOp][1..] == [];
  }

  /** The whole walk of the example tree by one worker from the seeded
      queue: three iterations keep the worker discipline and stop the
      queue with nothing pending or active. */
  lemma ExampleWalkStops(c: Criteria)
    requires c.needle == [] && c.extcsv == []
    ensures WorkerRun(ExampleSeed(), 0, WalkOps(ExampleSeed(), ExampleListing, ExampleAllocs, 3))
    ensures Run(ExampleSeed(), WalkOps(ExampleSeed(), ExampleListing, ExampleAllocs, 3)) == QState([], 0, true)
  {
    ExampleAllocsFit();
    ExampleRootStep(c);
    ExampleSubStep(c);
    ExampleStopStep();
    var s1 := QState([SubPath], 0, false);
    var s2 := QState([], 0, false);
    var s3 := QState([], 0, true);
    assert WalkEnd(ExampleSeed(), ExampleListing, ExampleAllocs, 3) == s3 by {
      assert WalkEnd(s2, ExampleListing, ExampleAllocs, 1) == s3;
      assert WalkEnd(s1, ExampleListing, ExampleAllocs, 2) == s3;
    }
    var ops := WalkOps(ExampleSeed(), ExampleListing, ExampleAllocs, 3);
    WalkSegment(ExampleSeed(), 0, ExampleListing, ExampleAllocs, 3, []);
    assert ops + [] == ops;
  }

  /** Three iterations that hand out two directories and then stop
      count those two directories and add up their two tallies. */
  lemma WalkTwoThenStop(c: Criteria, s0: QState, fs: WStr -> Listing, allocs: WStr -> seq<Alloc>,
                        d0: WStr, d1: WStr)
    requires forall d: WStr :: AllocsFit(fs(d), allocs(d))
    requires PopStep(s0).result == Item(d0)
    requires PopStep(NextState(s0, fs, allocs)).result == Item(d1)
    requires PopStep(NextState(NextState(s0, fs, allocs), fs, allocs)).result == Stop
    ensures WalkDirs(s0, fs, allocs, 3) == 2
    ensures WalkTally(c, s0, fs, allocs, 3) ==
            Plus(DirTally(c, d0, fs(d0), allocs(d0)), DirTally(c, d1, fs(d1), allocs(d1)))
  {
    var s1 := NextState(s0, fs, allocs);
    var s2 := NextState(s1, fs, allocs);
    assert WalkTally(c, s2, fs, allocs, 1) == NoTally();
    var t1 := DirTally(c, d1, fs(d1), allocs(d1));
    assert WalkTally(c, s1, fs, allocs, 2) == t1 by {
      assert t1.pushed + [] == t1.pushed && t1.matches + [] == t1.matches;
    }
  }

  /** Two one-file tallies, the first queueing one directory. */
  lemma TwoTallies(t0: Tally, t1: Tally, p: WStr, m0: WStr, m1: WStr)
    requires t0 == Tally([p], 1, 1, [m0]) && t1 == Tally([], 1, 1, [m1])
    ensures Plus(t0, t1) == Tally([p], 2, 2, [m0, m1])
  {
    assert [p] + [] == [p];
    assert [m0] + [m1] == [m0, m1];
  }

  /** Over that walk `dirs_scanned` grows by two, the root and "sub"; the
      file counters and the output grow by two files, both found and both
      reported; and "sub" is the one directory queued. */
  lemma ExampleWalkCounts(c: Criteria)
    requires c.needle == [] && c.extcsv == []
    ensures WalkDirs(ExampleSeed(), ExampleListing, ExampleAllocs, 3) == 2
    ensures WalkTally(c, ExampleSeed(), ExampleListing, ExampleAllocs, 3) ==
            Tally([SubPath], 2, 2, [RootFilePath, SubFilePath])
  {
    ExampleAllocsFit();
    ExampleRootStep(c);
    ExampleSubStep(c);
    ExampleStopStep();
    WalkTwoThenStop(c, ExampleSeed(), ExampleListing, ExampleAllocs, "C:\\r", SubPath);
    var t0 := DirTally(c, "C:\\r", ExampleListing("C:\\r"), ExampleAllocs("C:\\r"));
    var t1 := DirTally(c, SubPath, ExampleListing(SubPath), ExampleAllocs(SubPath));
    assert t0 == Tally([SubPath], 1, 1, [RootFilePath]);
    assert t1 == Tally([], 1, 1, [SubFilePath]);
    TwoTallies(t0, t1, SubPath, RootFilePath, SubFilePath);
  }
}
