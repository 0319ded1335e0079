/** The rotating log writer over a fault-free file system: file 0 is the live log, file i is the backup
    "log.i". */
module RotatingLog {
  import opened Bytes

  type Files = map<nat, seq<Byte>>

  datatype Log = Log(files: Files, size: nat, open: bool)

  datatype Limits = Limits(maxSize: nat, maxBackups: nat)

  predicate LimitsOk(lim: Limits) {
    lim.maxSize > 0 && lim.maxBackups > 0
  }

  /** NewRotatingWriter's defaulting. */
  function Defaulted(maxSize: int, maxBackups: int): (lim: Limits)
    ensures LimitsOk(lim) && (maxSize > 0 ==> lim.maxSize == maxSize) && (maxSize <= 0 ==> lim.maxSize == 10_485_760)
    ensures (maxBackups > 0 ==> lim.maxBackups == maxBackups) && (maxBackups <= 0 ==> lim.maxBackups == 1)
  {
    Limits(if maxSize <= 0 then 10 * 1024 * 1024 else maxSize, if maxBackups <= 0 then 1 else maxBackups)
  }

  // ----- what the operations do -----

  function OpenExistingOrNew(l: Log): Log {
    if 0 in l.files then l.(size := |l.files[0]|, open := true) else Log(l.files[0 := []], 0, true)
  }

  function Lookup(files: Files, i: nat): Option<seq<Byte>> {
    if i in files then Some(files[i]) else None
  }

  /** Every file up to the oldest backup n moves up by one; the oldest is gone, and so is file 0. */
  function ShiftedAt(files: Files, n: nat, i: nat): Option<seq<Byte>> {
    if i > n then Lookup(files, i) else if i == 0 then None else Lookup(files, i - 1)
  }

  function Shifted(files: Files, n: nat): Files {
    map i | i in files.Keys + (set j | j in files :: j + 1) && ShiftedAt(files, n, i).Some?
      :: ShiftedAt(files, n, i).value
  }

  lemma LookupShifted(files: Files, n: nat, i: nat)
    ensures Lookup(Shifted(files, n), i) == ShiftedAt(files, n, i)
  {
    if ShiftedAt(files, n, i).Some? && i <= n {
      assert i - 1 in files;
      assert i in set j | j in files :: j + 1;
    }
  }

  lemma SameFiles(a: Files, b: Files)
    requires forall i :: Lookup(a, i) == Lookup(b, i)
    ensures a == b
  {
    assert forall i :: (i in a <==> Lookup(a, i).Some?) && (i in b <==> Lookup(b, i).Some?);
    assert forall i :: i in a ==> Lookup(a, i) == Some(a[i]) && Lookup(b, i) == Some(b[i]);
  }

  function Rotate(lim: Limits, l: Log): Log {
    OpenExistingOrNew(Log(Shifted(l.files, lim.maxBackups), l.size, false))
  }

  predicate MustRotate(lim: Limits, l: Log, p: seq<Byte>) {
    l.size + |p| > lim.maxSize && l.size > 0
  }

  function Write(lim: Limits, l: Log, p: seq<Byte>): Log {
    var l1 := if MustRotate(lim, l, p) then Rotate(lim, l) else l;
    var l2 := if l1.open then l1 else OpenExistingOrNew(l1);
    l2.(files := l2.files[0 := Get(l2.files, 0) + p], size := l2.size + |p|)
  }

  function Get(files: Files, i: nat): seq<Byte> {
    if i in files then files[i] else []
  }

  /** The files when the renaming loop has moved everything above i. */
  function Renaming(was: Files, n: nat, i: nat, j: nat): Option<seq<Byte>> {
    if j > n || j <= i then Lookup(was, j) else if j == i + 1 then None else Lookup(was, j - 1)
  }

  class RotatingWriter {
    const limits: Limits
    var files: Files
    var currentSize: nat
    var open: bool

    constructor (files: Files, maxSize: int, maxBackups: int)
      ensures limits == Defaulted(maxSize, maxBackups)
      ensures View() == OpenExistingOrNew(Log(files, 0, false))
    {
      limits := Defaulted(maxSize, maxBackups);
      this.files, currentSize, open := files, 0, false;
      new;
      Open();
    }

    ghost function View(): Log
      reads this
    {
      Log(files, currentSize, open)
    }

    method Open()
      modifies this
      ensures View() == OpenExistingOrNew(old(View()))
    {
      if 0 in files {
        currentSize := |files[0]|;
      } else {
        files := files[0 := []];
        currentSize := 0;
      }
      open := true;
    }

    method WriteBytes(p: seq<Byte>)
      requires LimitsOk(limits)
      modifies this
      ensures View() == Write(limits, old(View()), p)
    {
      if currentSize + |p| > limits.maxSize && currentSize > 0 {
        RotateFiles();
      }
      if !open {
        Open();
      }
      files := files[0 := Get(files, 0) + p];
      currentSize := currentSize + |p|;
    }

    method RotateFiles()
      requires LimitsOk(limits)
      modifies this
      ensures View() == Rotate(limits, old(View()))
    {
      open := false;
      ghost var was := files;
      var n := limits.maxBackups;
      files := files - {n};
      var i := n - 1;
      while i >= 1
        invariant 0 <= i <= n - 1 && !open && currentSize == old(currentSize)
        invariant forall j: nat :: Lookup(files, j) == Renaming(was, n, i, j)
      {
        ghost var before := files;
        if i in files {
          files := files[i + 1 := files[i]] - {i};
        }
        assert Lookup(before, i + 1) == None && Lookup(before, i) == Lookup(was, i);
        assert forall j: nat :: Lookup(files, j) == if j == i then None
                                                    else if j == i + 1 then Lookup(before, i) else Lookup(before, j);
        i := i - 1;
      }
      ghost var renamed := files;
      if 0 in files {
        files := files[1 := files[0]] - {0};
      }
      assert Lookup(renamed, 1) == None && Lookup(renamed, 0) == Lookup(was, 0);
      assert forall j: nat :: Lookup(files, j) == if j == 0 then None
                                                  else if j == 1 then Lookup(renamed, 0) else Lookup(renamed, j);
      forall j: nat
        ensures Lookup(files, j) == Lookup(Shifted(was, n), j)
      {
        LookupShifted(was, n, j);
      }
      SameFiles(files, Shifted(was, n));
      Open();
    }

    method Close()
      modifies this
      ensures View() == old(View()).(open := false)
    {
      open := false;
    }
  }

  // ----- runs -----

  datatype Op = Append(p: seq<Byte>) | CloseFile

  function Apply(lim: Limits, l: Log, op: Op): Log {
    match op
    case Append(p) => Write(lim, l, p)
    case CloseFile => l.(open := false)
  }

  function Run(lim: Limits, files: Files, ops: seq<Op>): Log {
    if ops == [] then OpenExistingOrNew(Log(files, 0, false))
    else Apply(lim, Run(lim, files, ops[..|ops| - 1]), ops[|ops| - 1])
  }

  function Written(ops: seq<Op>): seq<Byte> {
    if ops == [] then []
    else
      var op := ops[|ops| - 1];
      Written(ops[..|ops| - 1]) + if op.Append? then op.p else []
  }

  /** log.i .. log.1, log in a row. */
  function Tail(files: Files, i: nat): seq<Byte> {
    if i == 0 then Get(files, 0) else Get(files, i) + Tail(files, i - 1)
  }

  predicate SuffixOf(a: seq<Byte>, b: seq<Byte>) {
    |a| <= |b| && b[|b| - |a|..] == a
  }

  /** The tracked size is the live file's size. */
  predicate SizeOk(l: Log) {
    0 in l.files && l.size == |l.files[0]|
  }

  predicate AllWithin(files: Files, n: nat, bound: nat) {
    forall i :: 0 <= i <= n && i in files ==> |files[i]| <= bound
  }

  ghost predicate BeyondUntouched(files: Files, files': Files, n: nat) {
    forall i: nat :: i > n ==> (i in files <==> i in files') && (i in files ==> files'[i] == files[i])
  }

  lemma {:induction false} TailOfShifted(files: Files, n: nat, i: nat)
    requires 1 <= i <= n
    ensures Tail(Shifted(files, n)[0 := []], i) == Tail(files, i - 1)
  {
    var s := Shifted(files, n)[0 := []];
    LookupShifted(files, n, i);
    assert Get(s, i) == Get(files, i - 1);
    if i == 1 {
      assert Tail(s, 0) == [];
    } else {
      TailOfShifted(files, n, i - 1);
    }
  }

  lemma RotateFilesAre(lim: Limits, l: Log)
    requires LimitsOk(lim)
    ensures Rotate(lim, l) == Log(Shifted(l.files, lim.maxBackups)[0 := []], 0, true)
  {
    LookupShifted(l.files, lim.maxBackups, 0);
  }

  lemma {:induction false} TailAppend(files: Files, p: seq<Byte>, i: nat)
    ensures Tail(files[0 := Get(files, 0) + p], i) == Tail(files, i) + p
  {
    if i > 0 {
      TailAppend(files, p, i - 1);
      assert Get(files, i) + (Tail(files, i - 1) + p) == Get(files, i) + Tail(files, i - 1) + p;
    }
  }

  lemma {:induction false} TailFresh(files: Files, i: nat)
    requires 0 !in files
    ensures Tail(files[0 := []], i) == Tail(files, i)
  {
    if i > 0 {
      TailFresh(files, i - 1);
    }
  }

  lemma SuffixDropped(a: seq<Byte>, b: seq<Byte>, whole: seq<Byte>, p: seq<Byte>)
    requires SuffixOf(a + b, whole)
    ensures SuffixOf(b + p, whole + p)
  {
    var w := whole[|whole| - |a + b|..];
    assert w == a + b;
    assert whole[|whole| - |b|..] == w[|a|..] == b;
    assert (whole + p)[|whole + p| - |b + p|..] == whole[|whole| - |b|..] + p;
  }

  /** One write: appended to the live file, at the cost at most of the oldest backup. */
  lemma WriteKeepsSuffix(lim: Limits, l: Log, p: seq<Byte>, whole: seq<Byte>)
    requires LimitsOk(lim) && SizeOk(l) && SuffixOf(Tail(l.files, lim.maxBackups), whole)
    ensures SuffixOf(Tail(Write(lim, l, p).files, lim.maxBackups), whole + p) && SizeOk(Write(lim, l, p))
  {
    var n := lim.maxBackups;
    if MustRotate(lim, l, p) {
      RotateFilesAre(lim, l);
      var files := Shifted(l.files, n)[0 := []];
      TailOfShifted(l.files, n, n);
      TailAppend(files, p, n);
      SuffixDropped(Get(l.files, n), Tail(l.files, n - 1), whole, p);
    } else {
      TailAppend(l.files, p, n);
      SuffixDropped([], Tail(l.files, n), whole, p);
      assert [] + Tail(l.files, n) == Tail(l.files, n);
    }
  }

  /** After any sequence of writes and closes, the backups and the live log in a row are the end of the
      initial content followed by everything written: only a front part is ever lost, and the tracked
      size is the live file's. */
  lemma {:induction false} NothingLostInTheMiddle(lim: Limits, files: Files, ops: seq<Op>)
    requires LimitsOk(lim)
    ensures SuffixOf(Tail(Run(lim, files, ops).files, lim.maxBackups), Tail(files, lim.maxBackups) + Written(ops))
    ensures SizeOk(Run(lim, files, ops))
  {
    var whole := Tail(files, lim.maxBackups);
    if ops == [] {
      if 0 !in files {
        TailFresh(files, lim.maxBackups);
      }
      assert whole + [] == whole;
    } else {
      var before, op := ops[..|ops| - 1], ops[|ops| - 1];
      NothingLostInTheMiddle(lim, files, before);
      if op.Append? {
        WriteKeepsSuffix(lim, Run(lim, files, before), op.p, whole + Written(before));
        assert whole + Written(before) + op.p == whole + Written(ops);
      } else {
        assert Written(before) + [] == Written(before);
      }
    }
  }

  lemma WriteKeepsBounds(lim: Limits, l: Log, p: seq<Byte>, bound: nat)
    requires LimitsOk(lim) && SizeOk(l) && lim.maxSize <= bound && |p| <= bound
    requires AllWithin(l.files, lim.maxBackups, bound)
    ensures AllWithin(Write(lim, l, p).files, lim.maxBackups, bound)
    ensures BeyondUntouched(l.files, Write(lim, l, p).files, lim.maxBackups)
  {
    if MustRotate(lim, l, p) {
      RotateFilesAre(lim, l);
      forall i: nat
        ensures Lookup(Shifted(l.files, lim.maxBackups), i) == ShiftedAt(l.files, lim.maxBackups, i)
      {
        LookupShifted(l.files, lim.maxBackups, i);
      }
      ShiftedBounds(l.files, Shifted(l.files, lim.maxBackups), lim.maxBackups, bound);
    }
  }

  lemma ShiftedBounds(files: Files, shifted: Files, n: nat, bound: nat)
    requires AllWithin(files, n, bound) && forall i: nat :: Lookup(shifted, i) == ShiftedAt(files, n, i)
    ensures AllWithin(shifted, n, bound) && BeyondUntouched(files, shifted, n)
  {
    forall i | 0 <= i <= n && i in shifted
      ensures |shifted[i]| <= bound
    {
      assert Lookup(shifted, i) == ShiftedAt(files, n, i);
    }
    forall i: nat | i > n
      ensures (i in files <==> i in shifted) && (i in files ==> shifted[i] == files[i])
    {
      assert Lookup(shifted, i) == ShiftedAt(files, n, i);
    }
  }

  /** Every file stays within any bound that the limit, the initial files and the single writes respect,
      and no file beyond the last backup is created, changed or removed. */
  lemma {:induction false} FilesStayBounded(lim: Limits, files: Files, ops: seq<Op>, bound: nat)
    requires LimitsOk(lim) && lim.maxSize <= bound && AllWithin(files, lim.maxBackups, bound)
    requires forall op :: op in ops && op.Append? ==> |op.p| <= bound
    ensures AllWithin(Run(lim, files, ops).files, lim.maxBackups, bound)
    ensures BeyondUntouched(files, Run(lim, files, ops).files, lim.maxBackups)
  {
    if ops != [] {
      var before, op := ops[..|ops| - 1], ops[|ops| - 1];
      FilesStayBounded(lim, files, before, bound);
      NothingLostInTheMiddle(lim, files, before);
      if op.Append? {
        assert op in ops;
        WriteKeepsBounds(lim, Run(lim, files, before), op.p, bound);
      }
    }
  }

  /** Bytes are lost only with the oldest backup: a write that does not rotate loses none, and one that
      rotates loses exactly the oldest backup. */
  lemma RotationLosesOldestOnly(lim: Limits, l: Log, p: seq<Byte>)
    requires LimitsOk(lim) && SizeOk(l)
    ensures var n := lim.maxBackups;
            Tail(Write(lim, l, p).files, n) ==
              (if l.size > 0 && l.size + |p| > lim.maxSize then Tail(l.files, n - 1) else Tail(l.files, n)) + p
    ensures Tail(l.files, lim.maxBackups) == Get(l.files, lim.maxBackups) + Tail(l.files, lim.maxBackups - 1)
  {
    var n := lim.maxBackups;
    if MustRotate(lim, l, p) {
      RotateFilesAre(lim, l);
      TailOfShifted(l.files, n, n);
      TailAppend(Shifted(l.files, n)[0 := []], p, n);
    } else {
      TailAppend(l.files, p, n);
    }
  }

  /** What a write does in every run: while the live file is empty or has room, the bytes are appended to it and
      nothing else changes; otherwise they start a new live file, the full one becomes the first backup, and every
      other backup moves up by one. */
  lemma WriteInRun(lim: Limits, files: Files, ops: seq<Op>, p: seq<Byte>, i: nat)
    requires LimitsOk(lim)
    ensures 0 in Run(lim, files, ops).files
    ensures var before, after := Run(lim, files, ops).files, Run(lim, files, ops + [Append(p)]).files;
            if before[0] == [] || |before[0]| + |p| <= lim.maxSize
            then after == before[0 := before[0] + p]
            else
              && Lookup(after, 0) == Some(p)
              && (1 <= i <= lim.maxBackups ==> Lookup(after, i) == Lookup(before, i - 1))
              && (i > lim.maxBackups ==> Lookup(after, i) == Lookup(before, i))
  {
    var l := Run(lim, files, ops);
    NothingLostInTheMiddle(lim, files, ops);
    assert (ops + [Append(p)])[..|ops|] == ops;
    if l.files[0] == [] || |l.files[0]| + |p| <= lim.maxSize {
      RoomyWrite(lim, l, p);
    } else {
      FullWrite(lim, l, p, i);
    }
  }

  lemma RoomyWrite(lim: Limits, l: Log, p: seq<Byte>)
    requires SizeOk(l) && (l.size == 0 || l.size + |p| <= lim.maxSize)
    ensures Write(lim, l, p).files == l.files[0 := l.files[0] + p]
  {
  }

  lemma FullWrite(lim: Limits, l: Log, p: seq<Byte>, i: nat)
    requires LimitsOk(lim) && l.size > 0 && l.size + |p| > lim.maxSize
    ensures Lookup(Write(lim, l, p).files, i) == if i == 0 then Some(p) else ShiftedAt(l.files, lim.maxBackups, i)
    ensures Lookup(Write(lim, l, p).files, 0) == Some(p)
  {
    RotateFilesAre(lim, l);
    LookupShifted(l.files, lim.maxBackups, i);
    assert [] + p == p;
  }

  /** In every run the file is open unless closing it was the last thing done: a write opens it again. */
  lemma OpenUnlessClosed(lim: Limits, files: Files, ops: seq<Op>)
    requires LimitsOk(lim)
    ensures Run(lim, files, ops).open == (ops == [] || ops[|ops| - 1] != CloseFile)
  {
    if ops != [] && ops[|ops| - 1].Append? {
      var l, p := Run(lim, files, ops[..|ops| - 1]), ops[|ops| - 1].p;
      assert Write(lim, l, p).open;
    }
  }
}
