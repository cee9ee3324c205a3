/**
  client_folder_zip_pump: the archive is printed straight onto a non-blocking socket, each file read once, with nothing
  but one buffer of slack. The kernel decides how much every read and write moves and where it stops.
 */
module ZipPump {
  import opened Bytes
  import opened Text
  import opened Crc32
  import opened Kernel
  import opened HttpMessage
  import opened Options
  import opened ZipFormat
  import ClientObject
  import Exchange

  // ----- the response head -----

  /** The archive name without the characters that would end a quoted string or a header line. */
  function Sanitized(name: seq<byte>): seq<byte> {
    if name == [] then []
    else if name[0] == QUOTE || name[0] == CR || name[0] == LF then Sanitized(name[1..])
    else [name[0]] + Sanitized(name[1..])
  }

  function FileName(archive: seq<byte>): (s: seq<byte>)
    ensures |s| <= 79
  {
    var s := Sanitized(archive);
    if |s| <= 79 then s else s[..79]
  }

  function Disposition(fileName: seq<byte>): Header {
    Header(Ascii("Content-Disposition"), Ascii("attachment; filename=\"") + fileName + [QUOTE])
  }

  function CacheControl(): Header {
    Header(Ascii("Cache-Control"), Ascii("private, no-store"))
  }

  /** The five fields, in the order they are printed. */
  function HeadFields(total: nat, fileName: seq<byte>): seq<Header> {
    [ContentType(Ascii("application/zip")), ContentLength(total), Disposition(fileName), CacheControl(),
     Connection(false)]
  }

  function Head(total: nat, fileName: seq<byte>): seq<byte> {
    Compose(Message(200, HeadFields(total, fileName), []))
  }

  lemma HeadFieldLengths(total: nat, fileName: seq<byte>)
    requires total < U64 && |fileName| <= 79
    ensures |FieldText(ContentType(Ascii("application/zip")))| == 29
    ensures |FieldText(ContentLength(total))| <= 36
    ensures |FieldText(Disposition(fileName))| <= 123
    ensures |FieldText(CacheControl())| == 32
    ensures |FieldText(Connection(false))| == 17
  {
    hide Ascii, Decimal;
    Word64Digits(total);
  }

  /** The head never outgrows its 320-byte buffer. */
  lemma HeadFits(total: nat, fileName: seq<byte>)
    requires total < U64 && |fileName| <= 79
    ensures |Head(total, fileName)| < 320
  {
    hide Compose, FieldText, FieldLines, Ascii, ContentType, ContentLength, Disposition, CacheControl, Connection;
    var hs := HeadFields(total, fileName);
    HeadFieldLengths(total, fileName);
    FieldLinesCons(hs);
    FieldLinesCons(hs[1..]);
    FieldLinesCons(hs[2..]);
    FieldLinesCons(hs[3..]);
    FieldLinesCons(hs[4..]);
    assert hs[1..][1..] == hs[2..] && hs[2..][1..] == hs[3..] && hs[3..][1..] == hs[4..] && hs[4..][1..] == [];
    NoFieldLines();
    ComposeLength(Message(200, hs, []));
    assert Reason(200) == "OK";
  }

  // ----- the work, as the kernel sees it -----

  /** One step of the pump: open the next file, send a fixed number of bytes, or copy a file of `avail` bytes. */
  datatype Job = Open | Send(len: nat) | Copy(size: nat, avail: nat)

  /** What read(2) returns when the kernel is ready to give `n` bytes: no more than a buffer, nor than the file has. */
  function Chunk(n: nat, remaining: nat, avail: nat): (k: nat)
    ensures k <= n && k <= remaining && k <= avail && k <= BUFFER
    ensures k == n || k == remaining || k == avail || k == 32 * 1024
  {
    Min(n, Min(Min(remaining, BUFFER), avail))
  }

  /** Copying `remaining` bytes of a file with `avail` bytes left, in slices of at most one buffer. */
  function CopyAll(script: seq<Answer>, remaining: nat, avail: nat): (p: Push)
    ensures p.sent <= remaining && p.sent <= avail && |p.rest| <= |script|
    ensures p.end == Done <==> p.sent == remaining
    ensures p.end == Unfinished ==> p.rest == []
    decreases |script|
  {
    if remaining == 0 then Push(0, script, Done)
    else if script == [] then Push(0, [], Unfinished)
    else match script[0]
      case Count(n) =>
        var k := Chunk(n, remaining, avail);
        if k == 0 then Push(0, script[1..], Broken) else
        var p := PushAll(script[1..], k);
        if p.end != Done then p else CopyAll(p.rest, remaining - k, avail - k).Plus(k)
      case Interrupted => CopyAll(script[1..], remaining, avail)
      case WouldBlock => CopyAll(script[1..], remaining, avail)
      case Fault => Push(0, script[1..], Broken)
  }

  /** Why a copy ended where it did, in a file with `avail` bytes left at first. */
  predicate CopyReason(script: seq<Answer>, p: Push, avail: nat) {
    && LeftOf(script, p.rest)
    && (p.end == Broken ==>
          && |p.rest| < |script|
          && var a := LastUsed(script, p.rest);
             || a == Fault || a == Count(0) || (Waited(script, p.rest) && !Positive(a))
             || (Positive(a) && p.sent == avail))
  }

  lemma CopyReasonTail(script: seq<Answer>, j: nat, p: Push, avail: nat, k: nat)
    requires j <= |script| && CopyReason(script[j..], p, avail)
    ensures CopyReason(script, p.Plus(k), avail + k)
  {
    LeftOfTail(script, j, p.rest);
  }

  lemma CopyEndsHere(script: seq<Answer>, remaining: nat, avail: nat)
    requires remaining == 0 || script == [] || script[0] == Fault
             || (script[0].Count? && Chunk(script[0].n, remaining, avail) == 0)
    ensures CopyReason(script, CopyAll(script, remaining, avail), avail)
  {
  }

  /** The first slice is read, but not sent whole. */
  lemma SliceEnds(script: seq<Answer>, remaining: nat, avail: nat)
    requires remaining > 0 && script != [] && script[0].Count?
    requires var k := Chunk(script[0].n, remaining, avail); k > 0 && PushAll(script[1..], k).end != Done
    ensures CopyReason(script, CopyAll(script, remaining, avail), avail)
  {
    hide PushAll;
    var k := Chunk(script[0].n, remaining, avail);
    PushStops(script[1..], k);
    LeftOfTail(script, 1, PushAll(script[1..], k).rest);
  }

  /**
    A copy is only given up when the kernel refuses a read or a write or a wait, or when the file has come to its end.
   */
  lemma {:induction false} CopyStops(script: seq<Answer>, remaining: nat, avail: nat)
    ensures CopyReason(script, CopyAll(script, remaining, avail), avail)
    decreases |script|
  {
    hide PushAll, CopyReason, LeftOf;
    if remaining == 0 || script == [] || script[0] == Fault {
      CopyEndsHere(script, remaining, avail);
    } else if script[0].Count? {
      var k := Chunk(script[0].n, remaining, avail);
      if k == 0 {
        CopyEndsHere(script, remaining, avail);
      } else {
        var q := PushAll(script[1..], k);
        if q.end != Done {
          SliceEnds(script, remaining, avail);
        } else {
          PushLeaves(script[1..], k);
          CopyStops(q.rest, remaining - k, avail - k);
          assert script[|script| - |q.rest|..] == q.rest;
          CopyReasonTail(script, |script| - |q.rest|, CopyAll(q.rest, remaining - k, avail - k), avail - k, k);
        }
      }
    } else {
      CopyStops(script[1..], remaining, avail);
      CopyReasonTail(script, 1, CopyAll(script[1..], remaining, avail), avail, 0);
    }
  }

  lemma PushLeaves(script: seq<Answer>, len: nat)
    ensures var rest := PushAll(script, len).rest; |rest| <= |script| && rest == script[|script| - |rest|..]
  {
    hide PushAll;
    PushStops(script, len);
  }

  /** A slice arrives: it is forwarded whole, or the copy stops where the forwarding did. */
  lemma CopySlice(script: seq<Answer>, remaining: nat, avail: nat)
    requires remaining > 0 && script != [] && script[0].Count?
    ensures var k := Chunk(script[0].n, remaining, avail);
            CopyAll(script, remaining, avail) ==
            if k == 0 then Push(0, script[1..], Broken) else
            var p := PushAll(script[1..], k);
            if p.end != Done then p else CopyAll(p.rest, remaining - k, avail - k).Plus(k)
  {
    hide PushAll, Chunk;
  }

  lemma CopyNoSlice(script: seq<Answer>, remaining: nat, avail: nat)
    requires remaining > 0 && script != [] && !script[0].Count?
    ensures CopyAll(script, remaining, avail) ==
            if script[0] == Fault then Push(0, script[1..], Broken) else CopyAll(script[1..], remaining, avail)
  {
    hide PushAll, Chunk;
  }

  lemma CopyEnds(script: seq<Answer>, remaining: nat, avail: nat)
    ensures remaining == 0 ==> CopyAll(script, remaining, avail) == Push(0, script, Done)
    ensures remaining > 0 && script == [] ==> CopyAll(script, remaining, avail) == Push(0, [], Unfinished)
  {
  }

  lemma DataLength(e: Entry)
    ensures |Data(e)| <= e.size && |Data(e)| <= |e.blob| && (|Data(e)| == e.size || |Data(e)| == |e.blob|)
  {
  }

  lemma DataSlice(e: Entry, pos: nat, k: nat)
    requires pos + k <= e.size && pos + k <= |e.blob|
    ensures Data(e)[pos..pos + k] == e.blob[pos..pos + k]
  {
  }

  lemma SliceJoin(s: seq<byte>, a: nat, n: nat, m: nat)
    requires a + n <= |s| && m <= n
    ensures s[..a] + s[a..a + n][..m] == s[..a + m]
    ensures s[..a] + s[a..a + n] == s[..a + n]
  {
    assert s[a..a + n][..m] == s[a..a + m];
  }

  lemma WireGrows(wire: seq<byte>, s: seq<byte>, a: nat, n: nat, m: nat)
    requires a + n <= |s| && m <= n
    ensures wire + s[..a] + s[a..a + n][..m] == wire + s[..a + m]
  {
    SliceJoin(s, a, n, m);
    assert wire + s[..a] + s[a..a + n][..m] == wire + (s[..a] + s[a..a + n][..m]);
  }

  function OpenNext(script: seq<Answer>): Push {
    if script == [] then Push(0, [], Unfinished)
    else Push(0, script[1..], if script[0].Count? then Done else Broken)
  }

  function RunJob(script: seq<Answer>, job: Job): Push {
    match job
    case Open => OpenNext(script)
    case Send(len) => PushAll(script, len)
    case Copy(size, avail) => CopyAll(script, size, avail)
  }

  function Run(script: seq<Answer>, jobs: seq<Job>): (p: Push)
    decreases |jobs|
  {
    if jobs == [] then Push(0, script, Done) else
    var p := RunJob(script, jobs[0]);
    if p.end == Done then Run(p.rest, jobs[1..]).Plus(p.sent) else p
  }

  function JobBytes(jobs: seq<Job>): nat {
    if jobs == [] then 0 else
    JobBytes(jobs[1..]) + match jobs[0]
                          case Open => 0
                          case Send(len) => len
                          case Copy(size, _) => size
  }

  function EntryJobs(e: Entry): seq<Job> {
    [Open, Send(30), Send(|e.name|), Send(20), Copy(e.size, |e.blob|), Send(24)]
  }

  function CentralJobs(e: Entry): seq<Job> {
    [Send(46), Send(|e.name|), Send(28)]
  }

  function EntriesJobs(es: seq<Entry>, i: nat): seq<Job>
    requires i <= |es|
    decreases |es| - i
  {
    if i == |es| then [] else EntryJobs(es[i]) + EntriesJobs(es, i + 1)
  }

  function DirectoryJobs(es: seq<Entry>, i: nat): seq<Job>
    requires i <= |es|
    decreases |es| - i
  {
    if i == |es| then [] else CentralJobs(es[i]) + DirectoryJobs(es, i + 1)
  }

  function TrailerJobs(): seq<Job> {
    [Send(56), Send(20), Send(22)]
  }

  function PumpJobs(head: nat, es: seq<Entry>): seq<Job> {
    [Send(head)] + EntriesJobs(es, 0) + DirectoryJobs(es, 0) + TrailerJobs()
  }

  /** Everything the client is entitled to: the head and the archive it announces. */
  function Stream(head: seq<byte>, es: seq<Entry>): seq<byte> {
    head + Archive(es)
  }

  /** How a download with a head of `head` bytes goes under a script. */
  function Download(script: seq<Answer>, head: nat, es: seq<Entry>): Push {
    Run(script, PumpJobs(head, es))
  }

  // ----- why a download ends -----

  /** The answers that went to opening files, as far as the jobs got. */
  function Opens(script: seq<Answer>, jobs: seq<Job>): seq<Answer>
    decreases |jobs|
  {
    if jobs == [] || (jobs[0].Open? && script == []) then []
    else
      var p := RunJob(script, jobs[0]);
      (if jobs[0].Open? then [script[0]] else []) + (if p.end == Done then Opens(p.rest, jobs[1..]) else [])
  }

  function CountOpens(jobs: seq<Job>): nat {
    if jobs == [] then 0 else (if jobs[0].Open? then 1 else 0) + CountOpens(jobs[1..])
  }

  /** Whether a file was shorter than its listing says. */
  predicate AnyShort(jobs: seq<Job>) {
    exists i :: 0 <= i < |jobs| && jobs[i].Copy? && jobs[i].avail < jobs[i].size
  }

  /** Why a download is broken off: an open, a read or a write that was refused, or a file that was too short. */
  predicate BreakReason(script: seq<Answer>, rest: seq<Answer>, jobs: seq<Job>) {
    && |rest| < |script|
    && var a := LastUsed(script, rest);
       a == Count(0) || !a.Count? || AnyShort(jobs)
  }

  lemma JobStops(script: seq<Answer>, job: Job)
    ensures var p := RunJob(script, job);
            && LeftOf(script, p.rest)
            && (p.end == Broken ==>
                  && |p.rest| < |script|
                  && var a := LastUsed(script, p.rest);
                     a == Count(0) || !a.Count? || (job.Copy? && job.avail < job.size))
  {
    hide PushAll, CopyAll, Waited;
    match job
    case Open =>
    case Send(len) => PushStops(script, len);
    case Copy(size, avail) => CopyStops(script, size, avail);
  }

  /** What holds of a list of jobs that has been run. */
  predicate RanForAReason(script: seq<Answer>, jobs: seq<Job>, p: Push) {
    && LeftOf(script, p.rest) && (p.end == Broken ==> BreakReason(script, p.rest, jobs))
    && (p.end == Done ==>
          && |Opens(script, jobs)| == CountOpens(jobs)
          && forall i :: 0 <= i < |Opens(script, jobs)| ==> Opens(script, jobs)[i].Count?)
  }

  /** The first job is done, and then the others have their reason. */
  lemma ReasonAfterFirst(script: seq<Answer>, jobs: seq<Job>, p: Push)
    requires jobs != [] && RunJob(script, jobs[0]).end == Done
    requires RanForAReason(RunJob(script, jobs[0]).rest, jobs[1..], p)
    ensures RanForAReason(script, jobs, p.Plus(RunJob(script, jobs[0]).sent))
  {
    hide RunJob, AnyShort, LeftOf, Waited;
    var q := RunJob(script, jobs[0]);
    JobStops(script, jobs[0]);
    OpenGranted(script, jobs[0]);
    Remains(script, q.rest);
    LeftOfTail(script, |script| - |q.rest|, p.rest);
    Remains(q.rest, p.rest);
    ShortLater(jobs);
  }

  /** The first job is not. */
  lemma FirstEnds(script: seq<Answer>, jobs: seq<Job>)
    requires jobs != [] && RunJob(script, jobs[0]).end != Done
    ensures RanForAReason(script, jobs, RunJob(script, jobs[0]))
  {
    hide RunJob, Opens, CountOpens, LeftOf;
    JobStops(script, jobs[0]);
  }

  lemma {:induction false} RunStops(script: seq<Answer>, jobs: seq<Job>)
    ensures RanForAReason(script, jobs, Run(script, jobs))
    decreases |jobs|
  {
    hide RunJob;
    if jobs == [] {
      LeftOfAll(script);
    } else {
      hide RanForAReason;
      if RunJob(script, jobs[0]).end == Done {
        RunStops(RunJob(script, jobs[0]).rest, jobs[1..]);
        ReasonAfterFirst(script, jobs, Run(RunJob(script, jobs[0]).rest, jobs[1..]));
      } else {
        FirstEnds(script, jobs);
      }
    }
  }

  lemma LeftOfAll(script: seq<Answer>)
    ensures LeftOf(script, script)
  {
  }

  lemma Remains(script: seq<Answer>, rest: seq<Answer>)
    requires LeftOf(script, rest)
    ensures |rest| <= |script| && script[|script| - |rest|..] == rest
  {
  }

  lemma OpenGranted(script: seq<Answer>, job: Job)
    ensures job.Open? && RunJob(script, job).end == Done ==> script != [] && script[0].Count?
  {
  }

  lemma ShortLater(jobs: seq<Job>)
    requires jobs != []
    ensures AnyShort(jobs[1..]) ==> AnyShort(jobs)
  {
    if i: int :| 0 <= i < |jobs[1..]| && jobs[1..][i].Copy? && jobs[1..][i].avail < jobs[1..][i].size {
      assert jobs[i + 1].Copy?;
    }
  }

  /**
    A download is broken off only for a reason: the kernel refused an open, a read, a write or a wait, or a file was
    shorter than its listing. And it is done only if every file could be opened.
   */
  lemma DownloadStops(script: seq<Answer>, head: nat, es: seq<Entry>)
    ensures var p, jobs := Download(script, head, es), PumpJobs(head, es);
            && (p.end == Broken ==>
                  && |p.rest| < |script|
                  && (var a := LastUsed(script, p.rest); a == Count(0) || !a.Count? || !Complete(es)))
            && (p.end == Done ==>
                  && |Opens(script, jobs)| == |es|
                  && forall i :: 0 <= i < |es| ==> Opens(script, jobs)[i].Count?)
  {
    hide Run, Opens, CountOpens;
    RunStops(script, PumpJobs(head, es));
    PumpOpens(head, es);
    PumpShort(head, es);
  }

  lemma {:induction false} OpensAppend(xs: seq<Job>, ys: seq<Job>)
    ensures CountOpens(xs + ys) == CountOpens(xs) + CountOpens(ys)
  {
    if xs == [] {
      assert xs + ys == ys;
    } else {
      assert (xs + ys)[1..] == xs[1..] + ys;
      OpensAppend(xs[1..], ys);
    }
  }

  lemma {:induction false} EntriesOpen(es: seq<Entry>, i: nat)
    requires i <= |es|
    ensures CountOpens(EntriesJobs(es, i)) == |es| - i
    decreases |es| - i
  {
    hide EntryJobs;
    if i < |es| {
      OneOpen(es[i]);
      EntriesOpen(es, i + 1);
      OpensAppend(EntryJobs(es[i]), EntriesJobs(es, i + 1));
    }
  }

  lemma OneOpen(e: Entry)
    ensures CountOpens(EntryJobs(e)) == 1
  {
    var jobs := EntryJobs(e);
    assert jobs == [Open] + jobs[1..];
    NoOpens(jobs[1..]);
  }

  lemma {:induction false} NoOpens(jobs: seq<Job>)
    requires forall i :: 0 <= i < |jobs| ==> !jobs[i].Open?
    ensures CountOpens(jobs) == 0
  {
    if jobs != [] { NoOpens(jobs[1..]); }
  }

  lemma {:induction false} DirectoryOpensNothing(es: seq<Entry>, i: nat)
    requires i <= |es|
    ensures forall k :: 0 <= k < |DirectoryJobs(es, i)| ==> DirectoryJobs(es, i)[k].Send?
    decreases |es| - i
  {
    if i < |es| { DirectoryOpensNothing(es, i + 1); }
  }

  lemma PumpOpens(head: nat, es: seq<Entry>)
    ensures CountOpens(PumpJobs(head, es)) == |es|
  {
    hide EntriesJobs, DirectoryJobs, CountOpens;
    EntriesOpen(es, 0);
    DirectoryOpensNothing(es, 0);
    NoOpens([Send(head)]);
    NoOpens(DirectoryJobs(es, 0));
    NoOpens(TrailerJobs());
    OpensAppend([Send(head)] + EntriesJobs(es, 0) + DirectoryJobs(es, 0), TrailerJobs());
    OpensAppend([Send(head)] + EntriesJobs(es, 0), DirectoryJobs(es, 0));
    OpensAppend([Send(head)], EntriesJobs(es, 0));
  }

  lemma {:induction false} EntriesShort(es: seq<Entry>, i: nat)
    requires i <= |es|
    ensures AnyShort(EntriesJobs(es, i)) ==> exists j :: i <= j < |es| && es[j].size > |es[j].blob|
    decreases |es| - i
  {
    if i < |es| {
      EntriesShort(es, i + 1);
      var jobs, rest := EntriesJobs(es, i), EntriesJobs(es, i + 1);
      if k: int :| 0 <= k < |jobs| && jobs[k].Copy? && jobs[k].avail < jobs[k].size {
        if k >= 6 { assert rest[k - 6] == jobs[k]; } else { assert EntryJobs(es[i])[k] == jobs[k]; }
      }
    }
  }

  lemma PumpShort(head: nat, es: seq<Entry>)
    ensures AnyShort(PumpJobs(head, es)) ==> !Complete(es)
  {
    hide EntriesJobs, DirectoryJobs;
    EntriesShort(es, 0);
    DirectoryOpensNothing(es, 0);
    var jobs, files := PumpJobs(head, es), EntriesJobs(es, 0);
    if k: int :| 0 <= k < |jobs| && jobs[k].Copy? && jobs[k].avail < jobs[k].size {
      if 1 <= k <= |files| {
        assert files[k - 1] == jobs[k];
      } else if k > |files| && k - 1 - |files| < |DirectoryJobs(es, 0)| {
        assert DirectoryJobs(es, 0)[k - 1 - |files|] == jobs[k];
      }
    }
  }

  // ----- laws of runs -----

  lemma {:induction false} RunAppend(script: seq<Answer>, xs: seq<Job>, ys: seq<Job>)
    ensures Run(script, xs + ys)
         == (var p := Run(script, xs); if p.end == Done then Run(p.rest, ys).Plus(p.sent) else p)
    decreases |xs|
  {
    hide RunJob;
    if xs == [] {
      assert xs + ys == ys;
    } else {
      RunAppend(RunJob(script, xs[0]).rest, xs[1..], ys);
      assert (xs + ys)[1..] == xs[1..] + ys;
    }
  }

  /** The next job of a list, from position `k`. */
  lemma RunStep(script: seq<Answer>, jobs: seq<Job>, k: nat)
    requires k < |jobs|
    ensures Run(script, jobs[k..])
         == (var p := RunJob(script, jobs[k]); if p.end == Done then Run(p.rest, jobs[k + 1..]).Plus(p.sent) else p)
  {
    hide RunJob;
    assert jobs[k..][0] == jobs[k] && jobs[k..][1..] == jobs[k + 1..];
  }

  lemma {:induction false} JobBytesAppend(xs: seq<Job>, ys: seq<Job>)
    ensures JobBytes(xs + ys) == JobBytes(xs) + JobBytes(ys)
  {
    if xs == [] {
      assert xs + ys == ys;
    } else {
      JobBytesAppend(xs[1..], ys);
      assert (xs + ys)[1..] == xs[1..] + ys;
    }
  }

  /** One run of the pump: the script and the wire it started from, its jobs and the bytes they should deliver. */
  datatype Plan = Plan(start: seq<Answer>, base: seq<byte>, jobs: seq<Job>, stream: seq<byte>)

  /** After `k` jobs and `sent` bytes, what is left to do from here completes the planned run. */
  ghost predicate Progress(plan: Plan, k: nat, sent: nat, script: seq<Answer>) {
    k <= |plan.jobs| && Run(plan.start, plan.jobs) == Run(script, plan.jobs[k..]).Plus(sent)
  }

  lemma Advance(plan: Plan, k: nat, sent: nat, script: seq<Answer>)
    requires Progress(plan, k, sent, script) && k < |plan.jobs|
    ensures var p := RunJob(script, plan.jobs[k]);
            if p.end == Done then Progress(plan, k + 1, sent + p.sent, p.rest)
            else Run(plan.start, plan.jobs) == p.Plus(sent)
  {
    hide RunJob;
    RunStep(script, plan.jobs, k);
  }

  lemma Begin(plan: Plan)
    ensures Progress(plan, 0, 0, plan.start)
  {
    assert plan.jobs[0..] == plan.jobs;
  }

  lemma Finish(plan: Plan, sent: nat, script: seq<Answer>)
    requires Progress(plan, |plan.jobs|, sent, script)
    ensures Run(plan.start, plan.jobs) == Push(sent, script, Done)
  {
    assert plan.jobs[|plan.jobs|..] == [];
  }

  // ----- where the jobs stand -----

  lemma {:induction false} EntriesJobsAt(es: seq<Entry>, from: nat, i: nat)
    requires from <= i <= |es|
    ensures |EntriesJobs(es, from)| == 6 * (|es| - from)
    ensures i < |es| ==> EntriesJobs(es, from)[6 * (i - from)..6 * (i - from) + 6] == EntryJobs(es[i])
    decreases |es| - from
  {
    if from < |es| {
      var head, tail := EntryJobs(es[from]), EntriesJobs(es, from + 1);
      EntriesJobsAt(es, from + 1, if from < i then i else from + 1);
      if from < i < |es| {
        var k := 6 * (i - from - 1);
        assert (head + tail)[k + 6..k + 12] == tail[k..k + 6];
      }
    }
  }

  lemma {:induction false} DirectoryJobsAt(es: seq<Entry>, from: nat, i: nat)
    requires from <= i <= |es|
    ensures |DirectoryJobs(es, from)| == 3 * (|es| - from)
    ensures i < |es| ==> DirectoryJobs(es, from)[3 * (i - from)..3 * (i - from) + 3] == CentralJobs(es[i])
    decreases |es| - from
  {
    if from < |es| {
      var head, tail := CentralJobs(es[from]), DirectoryJobs(es, from + 1);
      DirectoryJobsAt(es, from + 1, if from < i then i else from + 1);
      if from < i < |es| {
        var k := 3 * (i - from - 1);
        assert (head + tail)[k + 3..k + 6] == tail[k..k + 3];
      }
    }
  }

  /** The jobs of entry `i`, of directory entry `i` and of the trailer, inside the whole list. */
  lemma JobsAt(head: nat, es: seq<Entry>, i: nat)
    requires i <= |es|
    ensures var jobs, n := PumpJobs(head, es), |es|;
            && |jobs| == 1 + 9 * n + 3 && jobs[0] == Send(head)
            && (i < n ==> jobs[1 + 6 * i..1 + 6 * i + 6] == EntryJobs(es[i]))
            && (i < n ==> jobs[1 + 6 * n + 3 * i..1 + 6 * n + 3 * i + 3] == CentralJobs(es[i]))
            && jobs[1 + 9 * n..] == TrailerJobs()
  {
    hide EntriesJobs, DirectoryJobs, EntryJobs, CentralJobs, TrailerJobs;
    EntriesJobsAt(es, 0, i);
    DirectoryJobsAt(es, 0, i);
    var x, y, z, n := EntriesJobs(es, 0), DirectoryJobs(es, 0), TrailerJobs(), |es|;
    assert |z| == 3 by { TrailerJobsCount(); }
    Inside([Send(head)], x, y, z, 6 * i, 3 * i, i < n);
  }

  lemma TrailerJobsCount()
    ensures |TrailerJobs()| == 3
  {
  }

  lemma Inside(w: seq<Job>, x: seq<Job>, y: seq<Job>, z: seq<Job>, a: nat, b: nat, inside: bool)
    requires inside ==> a + 6 <= |x| && b + 3 <= |y|
    ensures var s := w + x + y + z;
            && (inside ==> s[|w| + a..|w| + a + 6] == x[a..a + 6])
            && (inside ==> s[|w| + |x| + b..|w| + |x| + b + 3] == y[b..b + 3])
            && s[|w| + |x| + |y|..] == z
  {
  }

  /** The list ends by sending something, so no run can be complete before its last job. */
  predicate EndsBySending(jobs: seq<Job>) {
    jobs != [] && jobs[|jobs| - 1].Send? && jobs[|jobs| - 1].len > 0
  }

  /** A run that is cut off has sent strictly less than the jobs add up to; a run that is not has sent it all. */
  lemma {:induction false} CutOffIsShort(script: seq<Answer>, jobs: seq<Job>)
    requires EndsBySending(jobs)
    ensures var p := Run(script, jobs);
            && p.sent <= JobBytes(jobs)
            && (p.end == Done <==> p.sent == JobBytes(jobs))
    decreases |jobs|
  {
    var p := RunJob(script, jobs[0]);
    if |jobs| == 1 {
      assert jobs[1..] == [];
    } else {
      assert EndsBySending(jobs[1..]);
      CutOffIsShort(p.rest, jobs[1..]);
      SomethingLeft(jobs[1..]);
    }
  }

  lemma {:induction false} SomethingLeft(jobs: seq<Job>)
    requires EndsBySending(jobs)
    ensures JobBytes(jobs) > 0
    decreases |jobs|
  {
    if |jobs| > 1 {
      assert EndsBySending(jobs[1..]);
      SomethingLeft(jobs[1..]);
    }
  }

  // ----- the handle the application hands out -----

  /** Calls made on the application's archive handle and on the file descriptors it opens. */
  datatype ZipCall = Begun(ok: bool) | Opened(ok: bool) | Closed | Recorded(entry: nat) | Released

  /** Where a handle stands: not taken, live, live with a file open, given back, or used against its contract. */
  datatype Handle = Untaken | Live | Reading | Gone | Misused

  function After(h: Handle, c: ZipCall): Handle {
    match (h, c)
    case (Untaken, Begun(ok)) => if ok then Live else Gone
    case (Live, Opened(ok)) => if ok then Reading else Live
    case (Reading, Closed) => Live
    case (Live, Recorded(_)) => Live
    case (Live, Released) => Gone
    case (_, _) => Misused
  }

  function Track(h: Handle, calls: seq<ZipCall>): Handle
    decreases |calls|
  {
    if calls == [] then h else After(Track(h, calls[..|calls| - 1]), calls[|calls| - 1])
  }

  lemma TrackSnoc(h: Handle, calls: seq<ZipCall>, c: ZipCall)
    ensures Track(h, calls + [c]) == After(Track(h, calls), c)
  {
    assert (calls + [c])[..|calls|] == calls;
  }

  // ----- the code -----

  /** Little-endian stores into a header, keeping count of the fields laid down so far. */
  method Le16(p: array<byte>, at: nat, v: nat, ghost fs: seq<Field>) returns (ghost gs: seq<Field>)
    requires at + 2 <= p.Length && v < U16 && p[..at] == Encode(fs)
    modifies p
    ensures gs == fs + [Field(2, v)] && p[..at + 2] == Encode(gs)
  {
    p[at] := v % 256;
    p[at + 1] := v / 256 % 256;
    gs := fs + [Field(2, v)];
    EncodeSnoc(fs, Field(2, v));
    assert Le(v, 2) == [v % 256] + Le(v / 256, 1);
    assert Le(v / 256, 1) == [v / 256 % 256];
    assert p[..at + 2] == old(p[..at]) + Le(v, 2);
  }

  method Le32(p: array<byte>, at: nat, v: nat, ghost fs: seq<Field>) returns (ghost gs: seq<Field>)
    requires at + 4 <= p.Length && v < U32 && p[..at] == Encode(fs)
    modifies p
    ensures gs == fs + [Field(4, v)] && p[..at + 4] == Encode(gs)
  {
    p[at] := v % 256;
    p[at + 1] := v / 0x100 % 256;
    p[at + 2] := v / 0x1_0000 % 256;
    p[at + 3] := v / 0x100_0000 % 256;
    gs := fs + [Field(4, v)];
    EncodeSnoc(fs, Field(4, v));
    LeFour(v);
    assert p[..at + 4] == old(p[..at]) + Le(v, 4);
  }

  lemma LeFour(v: nat)
    ensures Le(v, 4) == [v % 256, v / 0x100 % 256, v / 0x1_0000 % 256, v / 0x100_0000 % 256]
  {
    assert v / 256 / 256 == v / 0x1_0000 && v / 256 / 256 / 256 == v / 0x100_0000;
    assert Le(v / 256 / 256 / 256, 1) == [v / 256 / 256 / 256 % 256];
    assert Le(v / 256 / 256, 2) == [v / 256 / 256 % 256] + Le(v / 256 / 256 / 256, 1);
    assert Le(v / 256, 3) == [v / 256 % 256] + Le(v / 256 / 256, 2);
  }

  method Le64(p: array<byte>, at: nat, v: nat, ghost fs: seq<Field>) returns (ghost gs: seq<Field>)
    requires at + 8 <= p.Length && v < U64 && p[..at] == Encode(fs)
    modifies p
    ensures gs == fs + [Field(8, v)] && p[..at + 8] == Encode(gs)
  {
    hide Le, Encode;
    var w := v;
    for i := 0 to 8
      invariant p[..at] == old(p[..at])
      invariant Le(v, 8) == p[at..at + i] + Le(w, 8 - i)
    {
      LeCons(w, 8 - i);
      ghost var before := p[at..at + i];
      p[at + i] := w % 256;
      AppendOne(before, w % 256, Le(w / 256, 7 - i));
      assert p[at..at + i + 1] == before + [w % 256];
      w := w / 256;
    }
    gs := fs + [Field(8, v)];
    EncodeSnoc(fs, Field(8, v));
    assert p[..at + 8] == p[..at] + p[at..at + 8];
  }

  lemma LeCons(v: nat, width: nat)
    requires width > 0
    ensures Le(v, width) == [v % 256] + Le(v / 256, width - 1)
  {
  }

  lemma AppendOne(s: seq<byte>, b: byte, t: seq<byte>)
    ensures s + ([b] + t) == s + [b] + t
  {
  }

  lemma EmptyPrefix(p: array<byte>)
    ensures p[..0] == Encode([])
  {
  }

  /** For each of the first `n` entries: its checksum and the offset of its local header. */
  ghost predicate OnRecord(results: map<nat, (nat, nat)>, es: seq<Entry>, n: nat) {
    && n <= |es|
    && forall j :: 0 <= j < n ==> j in results && results[j] == (Crc(Data(es[j])), Wrap(BodySize(es[..j])))
  }

  lemma OnRecordSnoc(results: map<nat, (nat, nat)>, es: seq<Entry>, i: nat)
    requires i < |es| && OnRecord(results, es, i)
    ensures OnRecord(results[i := (Crc(Data(es[i])), Wrap(BodySize(es[..i])))], es, i + 1)
  {
    hide Crc, Data, Wrap, BodySize;
  }

  lemma OnRecordAt(results: map<nat, (nat, nat)>, es: seq<Entry>, i: nat)
    requires i < |es| && OnRecord(results, es, |es|)
    ensures i in results && results[i] == (Crc(Data(es[i])), Wrap(BodySize(es[..i])))
  {
    hide Crc, Data, Wrap, BodySize;
  }

  class FolderZipPump {
    const sock: Socket
    const table: CrcTable
    var calls: seq<ZipCall>
    /** What was recorded for each entry: its CRC and the offset of its local header. */
    var results: map<nat, (nat, nat)>

    constructor (sock: Socket, table: CrcTable)
      ensures this.sock == sock && this.table == table && calls == [] && results == map[]
    {
      this.sock := sock;
      this.table := table;
      calls := [];
      results := map[];
    }

    /** _write_all: everything or a failure. */
    method WriteAll(data: seq<byte>) returns (end: End)
      modifies sock
      ensures var p := PushAll(old(sock.script), |data|);
              end == p.end && sock.script == p.rest && sock.wire == old(sock.wire) + data[..p.sent]
    {
      hide PushAll;
      var sent := 0;
      while sent < |data|
        invariant sent <= |data|
        invariant PushAll(old(sock.script), |data|) == PushAll(sock.script, |data| - sent).Plus(sent)
        invariant sock.wire == old(sock.wire) + data[..sent]
        decreases |sock.script|
      {
        PushEnds(sock.script, |data| - sent);
        if sock.script == [] { return Unfinished; }
        PushStep(sock.script, |data| - sent);
        var a := sock.Write(data[sent..]);
        match a
        case Count(n) =>
          if n == 0 { return Broken; }
          WireGrows(old(sock.wire), data, sent, |data| - sent, n);
          sent := sent + n;
        case Interrupted =>
        case WouldBlock =>
          if sock.script == [] { return Unfinished; }
          var ready := sock.Ask();
          if !(ready.Count? && ready.n > 0) { return Broken; }
        case Fault =>
          return Broken;
      }
      PushEnds(sock.script, 0);
      end := Done;
    }

    /** One slice of `data`: extend the checksum, then send it. */
    method Forward(slice: seq<byte>, sum: nat, ghost data: seq<byte>, ghost pos: nat, ghost base: seq<byte>)
      returns (end: End, crc: nat)
      requires table.Ready() && pos + |slice| <= |data| && slice == data[pos..pos + |slice|]
      requires sum < U32 && sum == Update(0, data[..pos]) && sock.wire == base + data[..pos]
      modifies sock
      ensures crc < U32 && crc == Update(0, data[..pos + |slice|])
      ensures var p := PushAll(old(sock.script), |slice|);
              end == p.end && sock.script == p.rest && sock.wire == base + data[..pos + p.sent]
    {
      hide PushAll, Update, CrcTable.Ready;
      crc := table.Continue(sum, slice);
      UpdateAppend(0, data[..pos], slice);
      SliceJoin(data, pos, |slice|, |slice|);
      WireGrows(base, data, pos, |slice|, PushAll(sock.script, |slice|).sent);
      end := WriteAll(slice);
    }

    /** One turn of the copy: a slice goes through the buffer, or the copy ends here. */
    method CopyOnce(e: Entry, from: nat, sum: nat, ghost base: seq<byte>)
      returns (again: bool, end: End, pos: nat, crc: nat)
      requires table.Ready() && from < e.size && from <= |e.blob|
      requires sum < U32 && sum == Update(0, Data(e)[..from]) && sock.wire == base + Data(e)[..from]
      modifies sock
      ensures var p := CopyAll(old(sock.script), e.size - from, |e.blob| - from);
              if again then
                && from <= pos <= e.size && pos <= |e.blob| && |sock.script| < |old(sock.script)|
                && p == CopyAll(sock.script, e.size - pos, |e.blob| - pos).Plus(pos - from)
                && sock.wire == base + Data(e)[..pos] && crc < U32 && crc == Update(0, Data(e)[..pos])
              else
                && end != Done && end == p.end && sock.script == p.rest && from + p.sent <= |Data(e)|
                && sock.wire == base + Data(e)[..from + p.sent]
    {
      hide PushAll, CopyAll, Update, Data, CrcTable.Ready, Chunk, Min;
      DataLength(e);
      again, end, pos, crc := false, Broken, from, sum;
      CopyEnds(sock.script, e.size - from, |e.blob| - from);
      if sock.script == [] { return false, Unfinished, from, sum; }
      if sock.script[0].Count? {
        CopySlice(sock.script, e.size - from, |e.blob| - from);
      } else {
        CopyNoSlice(sock.script, e.size - from, |e.blob| - from);
      }
      var a := sock.Ask();
      if a.Count? {
        var k := Chunk(a.n, e.size - from, |e.blob| - from);
        if k > 0 {
          DataSlice(e, from, k);
          end, crc := Forward(e.blob[from..from + k], sum, Data(e), from, base);
          again, pos := end == Done, from + k;
        }
      } else {
        again := a != Fault;
      }
    }

    /** Reads the file once, checksumming and forwarding each slice. */
    method CopyFile(e: Entry) returns (end: End, crc: nat)
      requires table.Ready()
      modifies sock
      ensures var p := CopyAll(old(sock.script), e.size, |e.blob|);
              end == p.end && sock.script == p.rest && sock.wire == old(sock.wire) + Data(e)[..p.sent]
      ensures end == Done ==> crc == Crc(Data(e)) && crc < U32
    {
      hide PushAll, CopyAll, Update, Crc, Data, CrcTable.Ready, Chunk, Min;
      ghost var data := Data(e);
      DataLength(e);
      crc := 0;
      var pos: nat := 0;
      UpdateNothing(0);
      while pos < e.size
        invariant pos <= e.size && pos <= |e.blob|
        invariant CopyAll(old(sock.script), e.size, |e.blob|)
               == CopyAll(sock.script, e.size - pos, |e.blob| - pos).Plus(pos)
        invariant sock.wire == old(sock.wire) + data[..pos]
        invariant crc < U32 && crc == Update(0, data[..pos])
        decreases |sock.script|
      {
        var again;
        again, end, pos, crc := CopyOnce(e, pos, crc, old(sock.wire));
        if !again { return; }
      }
      CopyEnds(sock.script, 0, |e.blob| - pos);
      CrcIsUpdate(data);
      assert data[..pos] == data;
      end := Done;
    }

    // The records, built field by field in stack buffers of their fixed sizes.

    method LocalHeaderRecord(name: nat) returns (r: seq<byte>)
      ensures r == Encode(LocalHeader(Short(name)))
    {
      hide Encode;
      var p := new byte[30];
      EmptyPrefix(p);
      ghost var fs := Le32(p, 0, LOCAL_SIG, []);
      fs := Le16(p, 4, 45, fs);
      fs := Le16(p, 6, 0x0808, fs);
      fs := Le16(p, 8, 0, fs);
      assert fs == LocalHeader(Short(name))[..4];
      fs := Le16(p, 10, 0, fs);
      fs := Le16(p, 12, 0x0021, fs);
      fs := Le32(p, 14, 0, fs);
      fs := Le32(p, 18, ONES32, fs);
      assert fs == LocalHeader(Short(name))[..8];
      fs := Le32(p, 22, ONES32, fs);
      fs := Le16(p, 26, name % U16, fs);
      fs := Le16(p, 28, 20, fs);
      assert fs == LocalHeader(Short(name));
      r := p[..30];
    }

    method LocalExtraRecord(size: nat) returns (r: seq<byte>)
      requires size < U64
      ensures r == Encode(LocalExtra(size))
    {
      hide Encode;
      var p := new byte[20];
      EmptyPrefix(p);
      ghost var fs := Le16(p, 0, 1, []);
      fs := Le16(p, 2, 16, fs);
      fs := Le64(p, 4, size, fs);
      fs := Le64(p, 12, size, fs);
      assert fs == LocalExtra(size);
      r := p[..20];
    }

    method DescriptorRecord(crc: nat, size: nat) returns (r: seq<byte>)
      requires crc < U32 && size < U64
      ensures r == Encode(Descriptor(crc, size))
    {
      hide Encode;
      var p := new byte[24];
      EmptyPrefix(p);
      ghost var fs := Le32(p, 0, DESCRIPTOR_SIG, []);
      fs := Le32(p, 4, crc, fs);
      fs := Le64(p, 8, size, fs);
      fs := Le64(p, 16, size, fs);
      assert fs == Descriptor(crc, size);
      r := p[..24];
    }

    method CentralHeaderFront(p: array<byte>, crc: nat) returns (ghost fs: seq<Field>)
      requires p.Length == 46 && crc < U32
      modifies p
      ensures fs == [Field(4, CENTRAL_SIG), Field(2, 45), Field(2, 45), Field(2, 0x0808), Field(2, 0), Field(2, 0),
                     Field(2, 0x0021), Field(4, crc)]
      ensures p[..20] == Encode(fs)
    {
      hide Encode;
      EmptyPrefix(p);
      fs := Le32(p, 0, CENTRAL_SIG, []);
      fs := Le16(p, 4, 45, fs);
      fs := Le16(p, 6, 45, fs);
      fs := Le16(p, 8, 0x0808, fs);
      assert fs == [Field(4, CENTRAL_SIG), Field(2, 45), Field(2, 45), Field(2, 0x0808)];
      fs := Le16(p, 10, 0, fs);
      fs := Le16(p, 12, 0, fs);
      fs := Le16(p, 14, 0x0021, fs);
      fs := Le32(p, 16, crc, fs);
    }

    method CentralHeaderRecord(crc: nat, name: nat) returns (r: seq<byte>)
      requires crc < U32
      ensures r == Encode(CentralHeader(crc, Short(name)))
    {
      hide Encode;
      var p := new byte[46];
      ghost var fs := CentralHeaderFront(p, crc);
      assert fs == CentralHeader(crc, Short(name))[..8];
      fs := Le32(p, 20, ONES32, fs);
      fs := Le32(p, 24, ONES32, fs);
      fs := Le16(p, 28, name % U16, fs);
      fs := Le16(p, 30, 28, fs);
      assert fs == CentralHeader(crc, Short(name))[..12];
      fs := Le16(p, 32, 0, fs);
      fs := Le16(p, 34, 0, fs);
      fs := Le16(p, 36, 0, fs);
      fs := Le32(p, 38, 0, fs);
      fs := Le32(p, 42, ONES32, fs);
      assert fs == CentralHeader(crc, Short(name));
      r := p[..46];
    }

    method CentralExtraRecord(size: nat, offset: nat) returns (r: seq<byte>)
      requires size < U64 && offset < U64
      ensures r == Encode(CentralExtra(size, offset))
    {
      hide Encode;
      var p := new byte[28];
      EmptyPrefix(p);
      ghost var fs := Le16(p, 0, 1, []);
      fs := Le16(p, 2, 24, fs);
      fs := Le64(p, 4, size, fs);
      fs := Le64(p, 12, size, fs);
      fs := Le64(p, 20, offset, fs);
      assert fs == CentralExtra(size, offset);
      r := p[..28];
    }

    method Z64RecordRecord(count: nat, cdBytes: nat, cdOffset: nat) returns (r: seq<byte>)
      requires count < U64 && cdBytes < U64 && cdOffset < U64
      ensures r == Encode(Z64Record(count, cdBytes, cdOffset))
    {
      hide Encode;
      var p := new byte[56];
      EmptyPrefix(p);
      ghost var fs := Le32(p, 0, Z64_SIG, []);
      fs := Le64(p, 4, 56 - 12, fs);
      fs := Le16(p, 12, 45, fs);
      fs := Le16(p, 14, 45, fs);
      assert fs == Z64Record(count, cdBytes, cdOffset)[..4];
      fs := Le32(p, 16, 0, fs);
      fs := Le32(p, 20, 0, fs);
      fs := Le64(p, 24, count, fs);
      fs := Le64(p, 32, count, fs);
      assert fs == Z64Record(count, cdBytes, cdOffset)[..8];
      fs := Le64(p, 40, cdBytes, fs);
      fs := Le64(p, 48, cdOffset, fs);
      assert fs == Z64Record(count, cdBytes, cdOffset);
      r := p[..56];
    }

    method Z64LocatorRecord(z64: nat) returns (r: seq<byte>)
      requires z64 < U64
      ensures r == Encode(Z64Locator(z64))
    {
      hide Encode;
      var p := new byte[20];
      EmptyPrefix(p);
      ghost var fs := Le32(p, 0, LOCATOR_SIG, []);
      fs := Le32(p, 4, 0, fs);
      fs := Le64(p, 8, z64, fs);
      fs := Le32(p, 16, 1, fs);
      assert fs == Z64Locator(z64);
      r := p[..20];
    }

    method EocdRecord(count: nat, cdBytes: nat) returns (r: seq<byte>)
      ensures r == Encode(Eocd(count, cdBytes))
    {
      hide Encode;
      var p := new byte[22];
      EmptyPrefix(p);
      ghost var fs := Le32(p, 0, EOCD_SIG, []);
      fs := Le16(p, 4, 0, fs);
      fs := Le16(p, 6, 0, fs);
      fs := Le16(p, 8, if count < 0xFFFF then count else 0xFFFF, fs);
      assert fs == Eocd(count, cdBytes)[..4];
      fs := Le16(p, 10, if count < 0xFFFF then count else 0xFFFF, fs);
      fs := Le32(p, 12, if cdBytes < 0xFFFF_FFFF then cdBytes else 0xFFFF_FFFF, fs);
      fs := Le32(p, 16, 0xFFFF_FFFF, fs);
      fs := Le16(p, 20, 0, fs);
      assert fs == Eocd(count, cdBytes);
      r := p[..22];
    }

    // ----- the stream -----

    /** `k` jobs of the plan are done and exactly the first `sent` bytes of its stream are on the wire. */
    ghost predicate Mid(plan: Plan, k: nat, sent: nat)
      reads sock
    {
      && Progress(plan, k, sent, sock.script)
      && sent <= |plan.stream| && sock.wire == plan.base + plan.stream[..sent]
    }

    /** The planned run ended early, here, with a prefix of the stream on the wire. */
    ghost predicate Stopped(plan: Plan, end: End)
      reads sock
    {
      var p := Run(plan.start, plan.jobs);
      && p.end == end && end != Done && p.rest == sock.script
      && p.sent <= |plan.stream| && sock.wire == plan.base + plan.stream[..p.sent]
    }

    /** Sends the next piece of the stream. */
    method SendPart(data: seq<byte>, ghost plan: Plan, ghost k: nat, ghost sent: nat) returns (end: End)
      requires Mid(plan, k, sent) && k < |plan.jobs| && plan.jobs[k] == Send(|data|) && At(plan.stream, sent, data)
      modifies sock
      ensures if end == Done then Mid(plan, k + 1, sent + |data|) else Stopped(plan, end)
    {
      hide PushAll, Run;
      ghost var p := PushAll(sock.script, |data|);
      Advance(plan, k, sent, sock.script);
      WireGrows(plan.base, plan.stream, sent, |data|, p.sent);
      end := WriteAll(data);
    }

    /** Sends the next piece, a file. */
    method SendFile(e: Entry, ghost plan: Plan, ghost k: nat, ghost sent: nat) returns (end: End, crc: nat)
      requires table.Ready()
      requires Mid(plan, k, sent) && k < |plan.jobs| && plan.jobs[k] == Copy(e.size, |e.blob|)
      requires At(plan.stream, sent, Data(e))
      modifies sock
      ensures if end == Done then e.size <= |e.blob| && Mid(plan, k + 1, sent + e.size) else Stopped(plan, end)
      ensures end == Done ==> crc == Crc(Data(e)) && crc < U32
    {
      hide CopyAll, Run, Crc, Data, CrcTable.Ready;
      ghost var p := CopyAll(sock.script, e.size, |e.blob|);
      Advance(plan, k, sent, sock.script);
      DataLength(e);
      WireGrows(plan.base, plan.stream, sent, |Data(e)|, p.sent);
      end, crc := CopyFile(e);
    }

    method Call(c: ZipCall)
      modifies this`calls
      ensures calls == old(calls) + [c]
      ensures Track(Untaken, calls) == After(Track(Untaken, old(calls)), c)
    {
      TrackSnoc(Untaken, calls, c);
      calls := calls + [c];
    }

    /** Local header, name and ZIP64 extra field. */
    method SendLocal(e: Entry, ghost plan: Plan, ghost k: nat, ghost sent: nat) returns (end: End)
      requires e.size < U64 && Mid(plan, k, sent) && At(plan.stream, sent, Section(e))
      requires k + 3 <= |plan.jobs| && plan.jobs[k..k + 3] == [Send(30), Send(|e.name|), Send(20)]
      modifies sock
      ensures if end == Done then Mid(plan, k + 3, sent + 50 + |e.name|) else Stopped(plan, end)
    {
      hide Encode, Crc, Data, Run, Section, Mid, Stopped, At;
      SectionPlaces(e, plan.stream, sent);
      LocalHeaderLayout(Short(|e.name|));
      LocalExtraLayout(e.size);
      var lh := LocalHeaderRecord(|e.name|);
      var lx := LocalExtraRecord(e.size);
      assert plan.jobs[k] == plan.jobs[k..k + 3][0] && plan.jobs[k + 1] == plan.jobs[k..k + 3][1]
          && plan.jobs[k + 2] == plan.jobs[k..k + 3][2];
      end := SendPart(lh, plan, k, sent);
      if end != Done { return; }
      end := SendPart(e.name, plan, k + 1, sent + 30);
      if end != Done { return; }
      end := SendPart(lx, plan, k + 2, sent + 30 + |e.name|);
    }

    /** The data descriptor, once the checksum is known. */
    method SendDescriptor(e: Entry, crc: nat, ghost plan: Plan, ghost k: nat, ghost sent: nat) returns (end: End)
      requires e.size < U64 && crc < U32
      requires Mid(plan, k, sent) && k < |plan.jobs| && plan.jobs[k] == Send(24)
      requires At(plan.stream, sent, Encode(Descriptor(crc, e.size)))
      modifies sock
      ensures if end == Done then Mid(plan, k + 1, sent + 24) else Stopped(plan, end)
    {
      hide Encode, Run, Mid, Stopped, At;
      DescriptorLayout(crc, e.size);
      var dd := DescriptorRecord(crc, e.size);
      end := SendPart(dd, plan, k, sent);
    }

    /** What is sent while the file is open; the file is closed whether or not its bytes all went out. */
    method SendOpened(e: Entry, ghost plan: Plan, ghost k: nat, ghost sent: nat) returns (end: End, crc: nat)
      requires table.Ready() && e.size < U64 && Track(Untaken, calls) == Reading
      requires Mid(plan, k, sent) && At(plan.stream, sent, Section(e))
      requires k + 4 <= |plan.jobs|
      requires plan.jobs[k..k + 4] == [Send(30), Send(|e.name|), Send(20), Copy(e.size, |e.blob|)]
      modifies sock, this`calls
      ensures if end == Done then e.size <= |e.blob| && Mid(plan, k + 4, sent + 50 + |e.name| + e.size)
              else Stopped(plan, end)
      ensures end == Done ==> crc == Crc(Data(e)) && crc < U32
      ensures Track(Untaken, calls) == match end case Done => Live case Broken => Gone case Unfinished => Reading
    {
      hide Encode, Crc, Data, CrcTable.Ready, Run, Track, Section, Mid, Stopped, At;
      crc := 0;
      SectionPlaces(e, plan.stream, sent);
      assert plan.jobs[k..k + 4][..3] == plan.jobs[k..k + 3];
      assert plan.jobs[k + 3] == plan.jobs[k..k + 4][3];
      end := SendLocal(e, plan, k, sent);
      if end == Done {
        end, crc := SendFile(e, plan, k + 3, sent + 50 + |e.name|);
      }
      if end == Unfinished { return; }
      Call(Closed);
      if end == Broken { Call(Released); }
    }

    /** Opens the file of an entry. */
    method OpenFile(e: Entry, ghost plan: Plan, ghost k: nat, ghost sent: nat) returns (end: End)
      requires Track(Untaken, calls) == Live
      requires Mid(plan, k, sent) && k < |plan.jobs| && plan.jobs[k] == Open
      modifies sock, this`calls
      ensures if end == Done then Mid(plan, k + 1, sent) else Stopped(plan, end)
      ensures end == Done ==> Track(Untaken, calls) == Reading
      ensures end == Broken ==> Track(Untaken, calls) == Gone
      ensures end == Unfinished ==> Track(Untaken, calls) == Live
    {
      hide Run, Track;
      Advance(plan, k, sent, sock.script);
      if sock.script == [] { return Unfinished; }
      var a := sock.Ask();
      Call(Opened(a.Count?));
      if a.Count? { return Done; }
      Call(Released);
      end := Broken;
    }

    /** The end of an entry: its descriptor, and what the directory will need of it. */
    method CloseEntry(e: Entry, i: nat, off: nat, crc: nat, ghost plan: Plan, ghost k: nat, ghost sent: nat)
      returns (end: End)
      requires e.size < U64 && e.size <= |e.blob| && off < U64 && Track(Untaken, calls) == Live
      requires crc == Crc(Data(e)) && crc < U32
      requires Mid(plan, k, sent + 50 + |e.name| + e.size) && At(plan.stream, sent, Section(e))
      requires k < |plan.jobs| && plan.jobs[k] == Send(24)
      modifies this, sock
      ensures end == Done ==> Mid(plan, k + 1, sent + SectionSize(e)) && Track(Untaken, calls) == Live
      ensures end == Done ==> results == old(results)[i := (crc, off)]
      ensures end != Done ==> Stopped(plan, end)
      ensures end == Broken ==> Track(Untaken, calls) == Gone
      ensures end == Unfinished ==> Track(Untaken, calls) in {Live, Reading}
    {
      hide Encode, Crc, Data, Run, Track, Section, Mid, Stopped, At;
      SectionPlaces(e, plan.stream, sent);
      DataLength(e);
      end := SendDescriptor(e, crc, plan, k, sent + 50 + |e.name| + e.size);
      if end == Broken { Call(Released); }
      if end != Done { return; }
      Call(Recorded(i));
      results := results[i := (crc, off)];
    }

    /** One entry: open the file, send its section, record its checksum and the offset of its local header. */
    method SendEntry(e: Entry, i: nat, off: nat, ghost plan: Plan, ghost k: nat, ghost sent: nat)
      returns (end: End, next: nat)
      requires table.Ready() && e.size < U64 && off < U64 && Track(Untaken, calls) == Live
      requires Mid(plan, k, sent) && At(plan.stream, sent, Section(e))
      requires k + 6 <= |plan.jobs| && plan.jobs[k..k + 6] == EntryJobs(e)
      modifies this, sock
      ensures end == Done ==> e.size <= |e.blob| && Mid(plan, k + 6, sent + SectionSize(e))
      ensures end == Done ==> next == Wrap(off + SectionSize(e)) && Track(Untaken, calls) == Live
      ensures end == Done ==> results == old(results)[i := (Crc(Data(e)), off)]
      ensures end != Done ==> Stopped(plan, end)
      ensures end == Broken ==> Track(Untaken, calls) == Gone
      ensures end == Unfinished ==> Track(Untaken, calls) in {Live, Reading}
    {
      hide Encode, Crc, Data, CrcTable.Ready, Run, Track, Section, Mid, Stopped, At;
      next := off;
      EntryPlan(plan.jobs, k, e);
      end := OpenFile(e, plan, k, sent);
      if end != Done { return; }
      var crc: nat;
      end, crc := SendOpened(e, plan, k + 1, sent);
      if end != Done { return; }
      end := CloseEntry(e, i, off, crc, plan, k + 5, sent);
      next := (next + 30 + |e.name| + 20) % U64;
      next := (next + e.size) % U64;
      next := (next + 24) % U64;
      NextOffset(e, off);
    }

    /** One directory entry, from the recorded checksum and offset. */
    method SendCentral(e: Entry, i: nat, ghost plan: Plan, ghost k: nat, ghost sent: nat) returns (end: End)
      requires e.size < U64 && i in results && results[i].0 == Crc(Data(e)) && results[i].1 < U64
      requires Track(Untaken, calls) == Live
      requires Mid(plan, k, sent) && At(plan.stream, sent, CentralEntry(e, results[i].1))
      requires k + 3 <= |plan.jobs| && plan.jobs[k..k + 3] == CentralJobs(e)
      modifies sock, this`calls
      ensures if end == Done then Mid(plan, k + 3, sent + 46 + 28 + |e.name|) else Stopped(plan, end)
      ensures Track(Untaken, calls) == if end == Broken then Gone else Live
    {
      hide Encode, Crc, Data, Run, Track, Mid, Stopped, At, CentralEntry;
      var (crc, offset) := results[i];
      CentralPlaces(e, offset, plan.stream, sent);
      CentralHeaderLayout(crc, Short(|e.name|));
      CentralExtraLayout(e.size, offset);
      CrcIsPolynomialRemainder(Data(e));
      var cd := CentralHeaderRecord(crc, |e.name|);
      var cx := CentralExtraRecord(e.size, offset);
      assert plan.jobs[k] == plan.jobs[k..k + 3][0] && plan.jobs[k + 1] == plan.jobs[k..k + 3][1]
          && plan.jobs[k + 2] == plan.jobs[k..k + 3][2];
      end := SendPart(cd, plan, k, sent);
      if end == Done {
        end := SendPart(e.name, plan, k + 1, sent + 46);
      }
      if end == Done {
        end := SendPart(cx, plan, k + 2, sent + 46 + |e.name|);
      }
      if end == Broken { Call(Released); }
    }

    /** ZIP64 record, locator and classic trailer; the handle is given back whatever happened. */
    method SendTrailer(n: nat, cdBytes: nat, cdOffset: nat, z64: nat, ghost plan: Plan, ghost k: nat, ghost sent: nat)
      returns (end: End)
      requires n < U64 && cdBytes < U64 && cdOffset < U64 && z64 < U64 && Track(Untaken, calls) == Live
      requires Mid(plan, k, sent) && At(plan.stream, sent, Trailer(n, cdBytes, cdOffset, z64))
      requires k + 3 == |plan.jobs| && plan.jobs[k..] == TrailerJobs()
      modifies sock, this`calls
      ensures if end == Done then Mid(plan, k + 3, sent + 98) else Stopped(plan, end)
      ensures Track(Untaken, calls) == if end == Unfinished then Live else Gone
    {
      hide Encode, Run, Track, Mid, Stopped, At, Trailer;
      TrailerPlaces(n, cdBytes, cdOffset, z64, plan.stream, sent);
      Z64RecordLayout(n, cdBytes, cdOffset);
      Z64LocatorLayout(z64);
      EocdLayout(n, cdBytes);
      var z := Z64RecordRecord(n, cdBytes, cdOffset);
      var l := Z64LocatorRecord(z64);
      var eo := EocdRecord(n, cdBytes);
      assert plan.jobs[k] == plan.jobs[k..][0] && plan.jobs[k + 1] == plan.jobs[k..][1]
          && plan.jobs[k + 2] == plan.jobs[k..][2];
      end := SendPart(z, plan, k, sent);
      if end == Done {
        end := SendPart(l, plan, k + 1, sent + 56);
      }
      if end == Done {
        end := SendPart(eo, plan, k + 2, sent + 76);
      }
      if end != Unfinished { Call(Released); }
    }

    /** Two sums over the listing, in 64-bit arithmetic: the bytes before the directory and the directory's own. */
    method Measure(es: seq<Entry>) returns (body: nat, cdBytes: nat)
      ensures body == Wrap(BodySize(es)) && cdBytes == Wrap(CentralSize(es))
    {
      body, cdBytes := 0, 0;
      for i := 0 to |es|
        invariant body == Wrap(BodySize(es[..i])) && cdBytes == Wrap(CentralSize(es[..i]))
      {
        SizesSnoc(es, i);
        WrapAdd(BodySize(es[..i]), 30 + 20 + |es[i].name| + es[i].size + 24);
        WrapAdd(CentralSize(es[..i]), 46 + 28 + |es[i].name|);
        body := (body + (30 + 20 + |es[i].name| + es[i].size + 24)) % U64;
        cdBytes := (cdBytes + (46 + 28 + |es[i].name|)) % U64;
      }
      assert es[..|es|] == es;
    }

    /** Copies the name into an 80-byte buffer, skipping what may not stand in a quoted header value. */
    method BuildFileName(archive: seq<byte>) returns (name: seq<byte>)
      ensures name == FileName(archive)
    {
      name := [];
      var i := 0;
      while i < |archive| && |name| + 1 < 80
        invariant i <= |archive| && |name| <= 79
        invariant Sanitized(archive) == name + Sanitized(archive[i..])
      {
        var c := archive[i];
        assert archive[i..][1..] == archive[i + 1..];
        if c != QUOTE && c != CR && c != LF {
          assert name + ([c] + Sanitized(archive[i + 1..])) == (name + [c]) + Sanitized(archive[i + 1..]);
          name := name + [c];
        }
        i := i + 1;
      }
      if i == |archive| { assert archive[i..] == []; }
      assert name == FileName(archive);
    }

    /** The plan of a download from here. */
    ghost predicate Planned(plan: Plan, es: seq<Entry>, head: seq<byte>) {
      plan.jobs == PumpJobs(|head|, es) && plan.stream == Stream(head, es)
    }

    /** The next entry in its place. */
    method SendNext(es: seq<Entry>, i: nat, off: nat, ghost head: seq<byte>, ghost plan: Plan)
      returns (end: End, next: nat)
      requires table.Ready() && Planned(plan, es, head) && Track(Untaken, calls) == Live && i < |es| && es[i].size < U64
      requires off < U64 && off == Wrap(BodySize(es[..i])) && forall j :: 0 <= j < i ==> es[j].size <= |es[j].blob|
      requires Mid(plan, 1 + 6 * i, |head| + BodySize(es[..i])) && OnRecord(results, es, i)
      modifies this, sock
      ensures end == Done ==>
                && es[i].size <= |es[i].blob| && next < U64 && next == Wrap(BodySize(es[..i + 1]))
                && Track(Untaken, calls) == Live && OnRecord(results, es, i + 1)
                && Mid(plan, 1 + 6 * (i + 1), |head| + BodySize(es[..i + 1]))
      ensures end != Done ==> Stopped(plan, end)
      ensures end == Broken ==> Track(Untaken, calls) == Gone
      ensures end == Unfinished ==> Track(Untaken, calls) in {Live, Reading}
    {
      hide Run, Stream, BodySize, CentralSize, SectionSize, CrcTable.Ready, Mid, Stopped, Track, At, PumpJobs, Crc;
      hide Data, Wrap, OnRecord, EntryJobs, Section, Head, FileName;
      SizesSnoc(es, i);
      JobsAt(|head|, es, i);
      EntryPlace(es, head, i);
      OnRecordSnoc(results, es, i);
      WrapAdd(BodySize(es[..i]), SectionSize(es[i]));
      WrapBound(BodySize(es[..i + 1]));
      end, next := SendEntry(es[i], i, off, plan, 1 + 6 * i, |head| + BodySize(es[..i]));
    }

    /** One pass over the entries, recording where each began. */
    method SendEntries(es: seq<Entry>, ghost head: seq<byte>, ghost plan: Plan) returns (end: End)
      requires table.Ready() && Planned(plan, es, head) && Track(Untaken, calls) == Live
      requires forall i :: 0 <= i < |es| ==> es[i].size < U64
      requires Mid(plan, 1, |head|)
      modifies this, sock
      ensures end == Done ==> Complete(es) && Mid(plan, 1 + 6 * |es|, |head| + BodySize(es))
      ensures end == Done ==> Track(Untaken, calls) == Live && OnRecord(results, es, |es|)
      ensures end != Done ==> Stopped(plan, end)
      ensures end == Broken ==> Track(Untaken, calls) == Gone
      ensures end == Unfinished ==> Track(Untaken, calls) in {Live, Reading}
    {
      hide Run, Stream, BodySize, CrcTable.Ready, Mid, Stopped, Track, Planned, Wrap, OnRecord;
      ghost var h := |head|;
      var off: nat := 0;
      var i: nat := 0;
      NothingYet(es, results);
      end := Done;
      while i < |es|
        invariant i <= |es| && end == Done
        invariant forall j :: 0 <= j < i ==> es[j].size <= |es[j].blob|
        invariant off < U64 && off == Wrap(BodySize(es[..i])) && Track(Untaken, calls) == Live
        invariant Mid(plan, 1 + 6 * i, h + BodySize(es[..i]))
        invariant OnRecord(results, es, i)
      {
        end, off := SendNext(es, i, off, head, plan);
        if end != Done { return; }
        i := i + 1;
      }
      assert es[..|es|] == es;
    }

    /** The recorded results, replayed as the central directory. */
    method SendDirectory(es: seq<Entry>, ghost head: seq<byte>, ghost plan: Plan) returns (end: End)
      requires Planned(plan, es, head) && Track(Untaken, calls) == Live && Complete(es)
      requires forall i :: 0 <= i < |es| ==> es[i].size < U64
      requires OnRecord(results, es, |es|)
      requires Mid(plan, 1 + 6 * |es|, |head| + BodySize(es))
      modifies sock, this`calls
      ensures end == Done ==> Mid(plan, 1 + 9 * |es|, |head| + BodySize(es) + CentralSize(es))
      ensures end != Done ==> Stopped(plan, end)
      ensures Track(Untaken, calls) == if end == Broken then Gone else Live
    {
      hide Run, Stream, BodySize, CentralSize, Mid, Stopped, Track, At, PumpJobs, Crc, Data, Wrap, CentralEntry,
           OnRecord, CentralJobs;
      ghost var h, n := |head|, |es|;
      var i := 0;
      NothingYet(es, results);
      end := Done;
      while i < |es|
        invariant i <= n && Track(Untaken, calls) == Live && end == Done
        invariant Mid(plan, 1 + 6 * n + 3 * i, h + BodySize(es) + CentralSize(es[..i]))
      {
        SizesSnoc(es, i);
        JobsAt(h, es, i);
        CentralPlace(es, head, i);
        WrapBound(BodySize(es[..i]));
        OnRecordAt(results, es, i);
        end := SendCentral(es[i], i, plan, 1 + 6 * n + 3 * i, h + BodySize(es) + CentralSize(es[..i]));
        if end != Done { return; }
        i := i + 1;
      }
      assert es[..n] == es;
    }

    /** Everything that follows the head. */
    method SendBody(es: seq<Entry>, body: nat, cdBytes: nat, z64: nat, ghost head: seq<byte>, ghost plan: Plan)
      returns (end: End)
      requires table.Ready() && Planned(plan, es, head) && Mid(plan, 1, |head|) && Track(Untaken, calls) == Live
      requires |es| < U64 && forall i :: 0 <= i < |es| ==> es[i].size < U64
      requires body == Wrap(BodySize(es)) && cdBytes == Wrap(CentralSize(es))
      requires z64 == Wrap(BodySize(es) + CentralSize(es))
      modifies this, sock
      ensures end == Done ==> Complete(es) && Mid(plan, |plan.jobs|, |plan.stream|)
      ensures end != Done ==> Stopped(plan, end)
      ensures Track(Untaken, calls) in (if end == Unfinished then {Live, Reading} else {Gone})
    {
      hide Run, Stream, BodySize, CentralSize, TotalSize, CrcTable.Ready, Mid, Stopped, Track, At, PumpJobs;
      hide OnRecord, Wrap;
      WrapBound(BodySize(es));
      WrapBound(CentralSize(es));
      WrapBound(BodySize(es) + CentralSize(es));
      JobsAt(|head|, es, 0);
      end := SendEntries(es, head, plan);
      if end != Done { return; }
      end := SendDirectory(es, head, plan);
      if end != Done { return; }
      TrailerPlace(es, head);
      end := SendTrailer(|es|, cdBytes, body, z64, plan, 1 + 9 * |es|, |head| + BodySize(es) + CentralSize(es));
    }

    /** The head, then everything that follows it. */
    method SendStream(es: seq<Entry>, body: nat, cdBytes: nat, z64: nat, head: seq<byte>) returns (end: End)
      requires table.Ready() && Track(Untaken, calls) == Live
      requires |es| < U64 && forall i :: 0 <= i < |es| ==> es[i].size < U64
      requires body == Wrap(BodySize(es)) && cdBytes == Wrap(CentralSize(es))
      requires z64 == Wrap(BodySize(es) + CentralSize(es))
      modifies this, sock
      ensures var stream, p := Stream(head, es), Download(old(sock.script), |head|, es);
              && end == p.end && sock.script == p.rest
              && p.sent <= |stream| && sock.wire == old(sock.wire) + stream[..p.sent]
              && (end == Done ==> Complete(es) && p.sent == |stream|)
      ensures Track(Untaken, calls) in (if end == Unfinished then {Live, Reading} else {Gone})
    {
      hide Run, Stream, BodySize, CentralSize, CrcTable.Ready, Track, PumpJobs, Wrap;
      ghost var plan := Plan(sock.script, sock.wire, PumpJobs(|head|, es), Stream(head, es));
      Begin(plan);
      StreamPlaces(es, head);
      JobsAt(|head|, es, 0);
      end := SendPart(head, plan, 0, 0);
      if end == Broken { Call(Released); }
      if end != Done { return; }
      end := SendBody(es, body, cdBytes, z64, head, plan);
      if end == Done { Finish(plan, |plan.stream|, sock.script); }
    }

    /** What streaming the archive has done to a socket that was at `script` and `wire`. */
    ghost predicate Streamed(es: seq<Entry>, archive: seq<byte>, script: seq<Answer>, wire: seq<byte>, end: End)
      reads sock
    {
      var head := Head(Wrap(TotalSize(es)), FileName(archive));
      var stream, p := Stream(head, es), Download(script, |head|, es);
      && end == p.end && sock.script == p.rest && p.sent <= |stream| && sock.wire == wire + stream[..p.sent]
      && (end == Done ==> Complete(es) && p.sent == |stream|)
    }

    /**
      The download once the application has opened it. Under every script the wire gains a prefix of the announced
      stream, exactly as far as the jobs run; the stream is complete if and only if the pump says so, and then no file
      was shorter than declared. The handle is given back exactly once, and every file opened on the way has been
      closed.
     */
    method PumpArchive(es: seq<Entry>, archive: seq<byte>) returns (end: End)
      requires table.Ready() && calls == [Begun(true)] && results == map[]
      requires |es| < U64 && forall i :: 0 <= i < |es| ==> es[i].size < U64
      modifies this, sock
      ensures Streamed(es, archive, old(sock.script), old(sock.wire), end)
      ensures Track(Untaken, calls) in (if end == Unfinished then {Live, Reading} else {Gone})
    {
      hide Stream, Download, Head, FileName, TotalSize, BodySize, CentralSize, CrcTable.Ready, Wrap;
      var body, cdBytes := Measure(es);
      var z64 := (body + cdBytes) % U64;
      var total := (body + cdBytes + 56 + 20 + 22) % U64;
      Totals(es);
      var name := BuildFileName(archive);
      var head := Head(total, name);
      HeadFits(total, name);
      // The buffer for the head is large enough: the branch that gives up here is never taken.
      if |head| >= 320 { assert false; }
      end := SendStream(es, body, cdBytes, z64, head);
    }

    /**
      client_folder_zip_pump. If the application will not open the folder its own response is sent and the status is
      that of the send; otherwise the archive is streamed, and the status tells whether all of it went out.
     */
    method Pump(client: ClientObject.Client, refusal: Response, authorized: bool, es: seq<Entry>, archive: seq<byte>)
      returns (st: ClientObject.Status, ghost end: Option<End>)
      requires client.sock == sock && client.Idle() && !client.armedOut && client.buf.Length == BUFFER
      requires table.Ready() && calls == [] && results == map[]
      requires |es| < U64 && forall i :: 0 <= i < |es| ==> es[i].size < U64
      modifies this, sock, client.buf
      modifies client`policy, client`armedOut, client`draining, client`sendOff, client`sendLen
      ensures !authorized ==>
                && end == None && calls == [Begun(false)]
                && match Exchange.Render(client.server, Exchange.Answer(refusal), old(client.policy))
                   case None =>
                     st == ClientObject.Failure && sock.script == old(sock.script) && sock.wire == old(sock.wire)
                   case Some(m) => client.Delivered(m, old(sock.script), old(sock.wire), st)
      ensures authorized ==>
                && end.Some? && Streamed(es, archive, old(sock.script), old(sock.wire), end.value)
                && st == Reported(end.value)
                && Track(Untaken, calls) in (if end == Some(Unfinished) then {Live, Reading} else {Gone})
    {
      hide Streamed, Track, CrcTable.Ready, ClientObject.Client.Delivered, Exchange.Render;
      Call(Begun(authorized));
      end := None;
      if !authorized {
        st := client.Send(refusal);
        return;
      }
      var r := PumpArchive(es, archive);
      st, end := Reported(r), Some(r);
    }
  }

  function Reported(end: End): ClientObject.Status {
    match end
    case Done => ClientObject.Success
    case Broken => ClientObject.Failure
    case Unfinished => ClientObject.Pending
  }

  lemma EntryPlan(jobs: seq<Job>, k: nat, e: Entry)
    requires k + 6 <= |jobs| && jobs[k..k + 6] == EntryJobs(e)
    ensures jobs[k] == Open && jobs[k + 5] == Send(24)
    ensures jobs[k + 1..k + 5] == [Send(30), Send(|e.name|), Send(20), Copy(e.size, |e.blob|)]
  {
    var entry, inner := jobs[k..k + 6], jobs[k + 1..k + 5];
    assert jobs[k] == entry[0] && jobs[k + 5] == entry[5];
    forall i | 0 <= i < 4 ensures inner[i] == entry[i + 1] {
    }
  }

  lemma NextOffset(e: Entry, off: nat)
    ensures (((off + 30 + |e.name| + 20) % U64 + e.size) % U64 + 24) % U64 == Wrap(off + SectionSize(e))
  {
  }

  lemma NothingYet(es: seq<Entry>, results: map<nat, (nat, nat)>)
    ensures BodySize(es[..0]) == 0 && CentralSize(es[..0]) == 0 && Wrap(0) == 0 && OnRecord(results, es, 0)
  {
  }

  lemma WrapBound(v: nat)
    ensures Wrap(v) < U64
  {
  }

  lemma WrapAdd(a: nat, b: nat)
    ensures Wrap(Wrap(a) + b) == Wrap(a + b)
  {
  }

  /** The 64-bit sums of 64-bit sums are the sums of the whole. */
  lemma Totals(es: seq<Entry>)
    ensures var body, cd := Wrap(BodySize(es)), Wrap(CentralSize(es));
            && body < U64 && cd < U64
            && (body + cd) % U64 == Wrap(BodySize(es) + CentralSize(es))
            && (body + cd + 56 + 20 + 22) % U64 == Wrap(TotalSize(es))
  {
    hide BodySize, CentralSize;
    WrapSum(BodySize(es), CentralSize(es), 0);
    WrapSum(BodySize(es), CentralSize(es), 56 + 20 + 22);
  }

  lemma WrapSum(a: nat, b: nat, c: nat)
    ensures Wrap(a) < U64 && Wrap(b) < U64 && (Wrap(a) + Wrap(b) + c) % U64 == Wrap(a + b + c)
  {
  }

  // ----- where the pieces of the stream stand -----

  lemma StreamPlaces(es: seq<Entry>, head: seq<byte>)
    ensures At(Stream(head, es), 0, head)
    ensures At(Stream(head, es), |head|, Archive(es))
  {
    hide Head, FileName, Archive, BodySize, CentralSize;
    AtWhole(Stream(head, es));
    AtSplit(Stream(head, es), 0, head, Archive(es));
  }

  lemma AtShift(a: seq<byte>, base: nat, whole: seq<byte>, p: nat, chunk: seq<byte>)
    requires At(a, base, whole) && At(whole, p, chunk)
    ensures At(a, base + p, chunk)
  {
    var here := a[base + p..base + p + |chunk|];
    forall i | 0 <= i < |chunk| ensures here[i] == chunk[i] {
      assert chunk[i] == whole[p..p + |chunk|][i] == whole[p + i];
      assert whole[p + i] == a[base..base + |whole|][p + i];
    }
  }

  /** As long as no earlier file came up short, entry `i` stands at the sum of the sizes before it. */
  lemma EntryPlace(es: seq<Entry>, head: seq<byte>, i: nat)
    requires i < |es| && forall j :: 0 <= j < i ==> es[j].size <= |es[j].blob|
    ensures At(Stream(head, es), |head| + BodySize(es[..i]), Section(es[i]))
  {
    hide Stream, BodySize, CentralFrom, TrailerFor, Section;
    StreamPlaces(es, head);
    AtWhole(Archive(es));
    SplitThree(Archive(es), 0, SectionsFrom(es, 0), CentralFrom(es, 0), TrailerFor(es));
    PartialSectionAt(es, i, Archive(es));
    AtShift(Stream(head, es), |head|, Archive(es), BodySize(es[..i]), Section(es[i]));
  }

  lemma {:induction false} PartialSectionAt(es: seq<Entry>, i: nat, a: seq<byte>)
    requires i <= |es| && At(a, 0, SectionsFrom(es, 0))
    requires forall j :: 0 <= j < i ==> es[j].size <= |es[j].blob|
    ensures At(a, BodySize(es[..i]), SectionsFrom(es, i))
    ensures i < |es| ==> At(a, BodySize(es[..i]), Section(es[i]))
  {
    hide At, Section, SectionSize;
    if i == 0 {
      assert es[..0] == [];
    } else {
      PartialSectionAt(es, i - 1, a);
      SizesSnoc(es, i - 1);
      SectionLength(es[i - 1]);
      AtSplit(a, BodySize(es[..i - 1]), Section(es[i - 1]), SectionsFrom(es, i));
    }
    if i < |es| {
      AtSplit(a, BodySize(es[..i]), Section(es[i]), SectionsFrom(es, i + 1));
    }
  }

  lemma CentralPlace(es: seq<Entry>, head: seq<byte>, i: nat)
    requires i < |es| && Complete(es)
    ensures At(Stream(head, es), |head| + BodySize(es) + CentralSize(es[..i]),
               CentralEntry(es[i], Wrap(BodySize(es[..i]))))
  {
    hide Stream, BodySize, CentralSize, TotalSize, CentralEntry, SectionsFrom, CentralFrom, TrailerFor, Archive;
    hide Wrap, At, Crc, Data, Complete;
    StreamPlaces(es, head);
    ArchivePlaces(es);
    CentralAt(es, i, Archive(es), BodySize(es));
    AtShift(Stream(head, es), |head|, Archive(es), BodySize(es) + CentralSize(es[..i]),
            CentralEntry(es[i], Wrap(BodySize(es[..i]))));
  }

  lemma {:induction false} CentralAt(es: seq<Entry>, i: nat, a: seq<byte>, p: nat)
    requires i <= |es| && At(a, p, CentralFrom(es, 0))
    ensures At(a, p + CentralSize(es[..i]), CentralFrom(es, i))
    ensures i < |es| ==> At(a, p + CentralSize(es[..i]), CentralEntry(es[i], Wrap(BodySize(es[..i]))))
  {
    hide At, CentralEntry, BodySize, Wrap;
    if i == 0 {
      assert es[..0] == [];
    } else {
      CentralAt(es, i - 1, a, p);
      SizesSnoc(es, i - 1);
      CentralEntryLength(es[i - 1], Wrap(BodySize(es[..i - 1])));
      var last := CentralEntry(es[i - 1], Wrap(BodySize(es[..i - 1])));
      AtSplit(a, p + CentralSize(es[..i - 1]), last, CentralFrom(es, i));
    }
    if i < |es| {
      AtSplit(a, p + CentralSize(es[..i]), CentralEntry(es[i], Wrap(BodySize(es[..i]))), CentralFrom(es, i + 1));
    }
  }

  lemma TrailerPlace(es: seq<Entry>, head: seq<byte>)
    requires Complete(es)
    ensures var q := |head| + BodySize(es) + CentralSize(es);
            && At(Stream(head, es), q, TrailerFor(es)) && |Stream(head, es)| == q + 98
  {
    hide BodySize, CentralSize, TrailerFor, SectionsFrom, CentralFrom, Archive, Head, FileName;
    StreamPlaces(es, head);
    ArchivePlaces(es);
    AtShift(Stream(head, es), |head|, Archive(es), BodySize(es) + CentralSize(es), TrailerFor(es));
    StreamLength(es, head);
  }

  lemma StreamLength(es: seq<Entry>, head: seq<byte>)
    ensures |Stream(head, es)| == |head| + |Archive(es)|
  {
    hide Head, FileName, Archive, BodySize, CentralSize;
  }

  // ----- honest truncation -----

  lemma {:induction false} EntriesBytes(es: seq<Entry>, i: nat)
    requires i <= |es|
    ensures JobBytes(EntriesJobs(es, i)) == BodySize(es) - BodySize(es[..i])
    decreases |es| - i
  {
    if i == |es| {
      assert es[..i] == es;
    } else {
      EntriesBytes(es, i + 1);
      SizesSnoc(es, i);
      JobBytesAppend(EntryJobs(es[i]), EntriesJobs(es, i + 1));
      EntryBytes(es[i]);
    }
  }

  lemma EntryBytes(e: Entry)
    ensures JobBytes(EntryJobs(e)) == SectionSize(e) && JobBytes(CentralJobs(e)) == 46 + 28 + |e.name|
    ensures JobBytes(TrailerJobs()) == 56 + 20 + 22
  {
    var jobs := EntryJobs(e);
    JobBytesFrom(jobs, 0);
    JobBytesFrom(jobs, 1);
    JobBytesFrom(jobs, 2);
    JobBytesFrom(jobs, 3);
    JobBytesFrom(jobs, 4);
    JobBytesFrom(jobs, 5);
    assert jobs[0..] == jobs && jobs[6..] == [];
    ThreeBytes(46, |e.name|, 28);
    ThreeBytes(56, 20, 22);
  }

  lemma ThreeBytes(a: nat, b: nat, c: nat)
    ensures JobBytes([Send(a), Send(b), Send(c)]) == a + b + c
  {
    var jobs := [Send(a), Send(b), Send(c)];
    JobBytesFrom(jobs, 0);
    JobBytesFrom(jobs, 1);
    JobBytesFrom(jobs, 2);
    assert jobs[0..] == jobs && jobs[3..] == [];
  }

  lemma JobBytesFrom(jobs: seq<Job>, k: nat)
    requires k < |jobs|
    ensures JobBytes(jobs[k..]) == JobBytes(jobs[k + 1..]) + match jobs[k]
                                                            case Open => 0
                                                            case Send(len) => len
                                                            case Copy(size, _) => size
  {
    assert jobs[k..][1..] == jobs[k + 1..];
  }

  lemma {:induction false} DirectoryBytes(es: seq<Entry>, i: nat)
    requires i <= |es|
    ensures JobBytes(DirectoryJobs(es, i)) == CentralSize(es) - CentralSize(es[..i])
    decreases |es| - i
  {
    if i == |es| {
      assert es[..i] == es;
    } else {
      DirectoryBytes(es, i + 1);
      SizesSnoc(es, i);
      JobBytesAppend(CentralJobs(es[i]), DirectoryJobs(es, i + 1));
      EntryBytes(es[i]);
    }
  }

  /**
    Exact length and honest truncation. Whatever the kernel does, the download delivers the head and exactly the
    announced number of bytes when it succeeds, and strictly fewer when it does not: a client that counts can tell.
   */
  lemma HonestTruncation(script: seq<Answer>, head: nat, es: seq<Entry>)
    ensures var p := Download(script, head, es);
            && p.sent <= head + TotalSize(es)
            && (p.end == Done <==> p.sent == head + TotalSize(es))
  {
    hide EntriesJobs, DirectoryJobs, TrailerJobs, BodySize, CentralSize, Run;
    var jobs := PumpJobs(head, es);
    EntriesBytes(es, 0);
    DirectoryBytes(es, 0);
    NothingYet(es, map[]);
    EntryBytes(Entry([], 0, []));
    JobBytesAppend([Send(head)] + EntriesJobs(es, 0) + DirectoryJobs(es, 0), TrailerJobs());
    JobBytesAppend([Send(head)] + EntriesJobs(es, 0), DirectoryJobs(es, 0));
    JobBytesAppend([Send(head)], EntriesJobs(es, 0));
    assert JobBytes([Send(head)]) == head;
    TrailerSends();
    CutOffIsShort(script, jobs);
  }

  lemma TrailerSends()
    ensures EndsBySending(TrailerJobs())
  {
  }
}
