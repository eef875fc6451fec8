/** What a power cut may lose, and what it may tear, if configurations are written as a whole. */
module Cuts {
  import opened Text
  import opened Fat
  import opened SyncPlan

  // ---------------------------------------------------------------- what is durable

  /** The operations that no barrier has made durable. */
  function Pending(ops: seq<Op>): seq<Op> {
    if Barrier !in ops then ops else Pending(ops[1..])
  }

  /** The disk that the last barrier has made durable. */
  function Durable(d: Disk, ops: seq<Op>): Disk
    decreases |ops|
  {
    if Barrier !in ops then d else Durable(Apply(d, ops[0]), ops[1..])
  }

  lemma {:induction false} DurableAt(d: Disk, ops: seq<Op>) returns (m: nat)
    ensures m <= |ops| && Pending(ops) == ops[m..] && Durable(d, ops) == Run(d, ops[..m])
    ensures Barrier !in ops[m..] && (m > 0 ==> ops[m - 1] == Barrier)
    decreases |ops|
  {
    hide Apply;
    m := 0;
    if Barrier in ops {
      m := DurableAt(Apply(d, ops[0]), ops[1..]);
      m := m + 1;
      assert ops[1..][m - 1..] == ops[m..] && ops[..m][1..] == ops[1..][..m - 1];
      if m == 1 {
        assert ops[1..][0..] == ops[1..];
      }
    } else {
      assert ops[0..] == ops;
    }
  }

  predicate IsConfWrite(op: Op) {
    op.Write? && InEntries(Key(op.path))
  }

  /**
   The disks a power cut may leave if a configuration, being small, is written as a whole or not at all:
   `CrashOf` but for torn configurations.
   */
  ghost predicate AtomicCrash(d: Disk, ops: seq<Op>, c: Disk)
    decreases |ops|
  {
    if ops == [] then c == d
    else
      || AtomicCrash(Apply(d, ops[0]), ops[1..], c)
      || (Barrier !in ops && AtomicCrash(d, ops[1..], c))
      || (Barrier !in ops && !IsConfWrite(ops[0])
          && exists torn: Op :: TornOf(ops[0], torn) && AtomicCrash(Apply(d, torn), ops[1..], c))
  }

  lemma {:induction false} AtomicIsCrash(d: Disk, ops: seq<Op>, c: Disk)
    requires AtomicCrash(d, ops, c)
    ensures CrashOf(d, ops, c)
    decreases |ops|
  {
    hide Apply, TornOf, IsConfWrite;
    if ops != [] {
      if AtomicCrash(Apply(d, ops[0]), ops[1..], c) {
        AtomicIsCrash(Apply(d, ops[0]), ops[1..], c);
      } else if AtomicCrash(d, ops[1..], c) {
        AtomicIsCrash(d, ops[1..], c);
      } else {
        var torn: Op :| TornOf(ops[0], torn) && AtomicCrash(Apply(d, torn), ops[1..], c);
        AtomicIsCrash(Apply(d, torn), ops[1..], c);
      }
    }
  }

  lemma {:induction false} CrashIsAtomic(d: Disk, ops: seq<Op>, c: Disk)
    requires CrashOf(d, ops, c) && forall op | op in ops :: !IsConfWrite(op)
    ensures AtomicCrash(d, ops, c)
    decreases |ops|
  {
    hide Apply, TornOf, IsConfWrite;
    if ops != [] {
      assert ops[0] in ops && forall op | op in ops[1..] :: op in ops;
      if CrashOf(Apply(d, ops[0]), ops[1..], c) {
        CrashIsAtomic(Apply(d, ops[0]), ops[1..], c);
      } else if CrashOf(d, ops[1..], c) {
        CrashIsAtomic(d, ops[1..], c);
      } else {
        var torn: Op :| TornOf(ops[0], torn) && CrashOf(Apply(d, torn), ops[1..], c);
        CrashIsAtomic(Apply(d, torn), ops[1..], c);
      }
    }
  }

  /** Only what is pending is at stake. */
  lemma {:induction false} CrashFromDurable(d: Disk, ops: seq<Op>, c: Disk)
    ensures AtomicCrash(d, ops, c) <==> AtomicCrash(Durable(d, ops), Pending(ops), c)
    ensures CrashOf(d, ops, c) <==> CrashOf(Durable(d, ops), Pending(ops), c)
    decreases |ops|
  {
    hide Apply, TornOf;
    if Barrier in ops {
      CrashFromDurable(Apply(d, ops[0]), ops[1..], c);
    }
  }

  /** Nothing may be lost. */
  lemma {:induction false} AtomicOfRun(d: Disk, ops: seq<Op>)
    ensures AtomicCrash(d, ops, Run(d, ops))
    decreases |ops|
  {
    hide Apply, TornOf;
    if ops != [] {
      AtomicOfRun(Apply(d, ops[0]), ops[1..]);
    }
  }

  /** All that is pending may be lost. */
  lemma {:induction false} LoseAll(d: Disk, ops: seq<Op>)
    requires Barrier !in ops
    ensures AtomicCrash(d, ops, d)
    decreases |ops|
  {
    hide Apply, TornOf;
    if ops != [] {
      assert forall op | op in ops[1..] :: op in ops;
      LoseAll(d, ops[1..]);
    }
  }

  /** All but one removal may be lost, which then is complete. */
  lemma {:induction false} LoseOthers(d: Disk, ops: seq<Op>, op: Op)
    requires Barrier !in ops && op in ops && IsRemoval(op)
    ensures AtomicCrash(d, ops, Apply(d, Whole(op)))
    decreases |ops|
  {
    assert forall o | o in ops[1..] :: o in ops;
    if ops[0] == op {
      LoseAll(Apply(d, Whole(op)), ops[1..]);
      assert op.RemoveTree? ==> TornOf(op, Whole(op)) && !IsConfWrite(op);
    } else {
      hide Apply, TornOf;
      LoseOthers(d, ops[1..], op);
    }
  }

  /** The removal of a whole tree instead of a part of it. */
  function Whole(op: Op): Op {
    if op.RemoveTree? then RemoveTree(op.path, {}) else op
  }

  /** Any write that is pending may be torn, and what follows lost. */
  lemma {:induction false} TearOne(d: Disk, ops: seq<Op>, i: nat, text: Content)
    requires Barrier !in ops && i < |ops| && ops[i].Write?
    ensures CrashOf(d, ops, Apply(Run(d, ops[..i]), Write(ops[i].path, text)))
    decreases |ops|
  {
    assert forall o | o in ops[1..] :: o in ops;
    if i == 0 {
      var torn := Write(ops[0].path, text);
      LoseAll(Apply(d, torn), ops[1..]);
      AtomicIsCrash(Apply(d, torn), ops[1..], Apply(d, torn));
      assert TornOf(ops[0], torn);
    } else {
      hide Apply, TornOf;
      assert ops[..i][1..] == ops[1..][..i - 1];
      TearOne(Apply(d, ops[0]), ops[1..], i - 1, text);
    }
  }
}
