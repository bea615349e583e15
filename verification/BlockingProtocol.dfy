/**
  BlockingStreamBuffer between one producer writing strictly increasing timestamps and
  one consumer reading them in order by explicit timestamp, as a transition system.

  The producer sleeps on the condition variable while the buffer is full.  A read is
  three steps of the consumer: the lookup, the prune, and the notification after it.
*/
module BlockingProtocol {
  import opened Wrappers
  import opened TimeBuffers

  datatype Producer = Ready | Waiting
  datatype Consumer = Seeking | Found | Notifying

  predicate Increasing(ts: seq<int>) { forall i, j :: 0 <= i < j < |ts| ==> ts[i] < ts[j] }

  datatype Setup<T> = Setup(ts: seq<int>, values: seq<T>, size: int, padding: int) {
    predicate Valid() {
      && |ts| == |values|
      && 0 <= size && 0 <= padding
      && (forall i :: 0 <= i < |ts| ==> ts[i] != -1)
      && Increasing(ts)
    }

    predicate Consecutive() { forall i :: 0 < i < |ts| ==> ts[i] == ts[i - 1] + 1 }
  }

  type Config<T> = c: Setup<T> | c.Valid() witness Setup([], [], 0, 0)

  // written and read count the completed writes and reads.
  datatype State<T> = State(
    buffer: map<int, T>, current: int, producer: Producer, consumer: Consumer,
    written: nat, read: nat, delivered: seq<T>)

  datatype Step = Produce | Block | Spurious | Seek | Trim | Notify

  function Init<T>(): State<T> { State(map[], -1, Ready, Seeking, 0, 0, []) }

  predicate Enabled<T>(c: Config<T>, s: State<T>, step: Step) {
    match step
    case Produce => s.producer.Ready? && s.written < |c.ts| && |s.buffer| < c.size
    case Block => s.producer.Ready? && s.written < |c.ts| && |s.buffer| >= c.size
    case Spurious => s.producer.Waiting?
    case Seek => s.consumer.Seeking? && s.read < |c.ts| && Lookup(s.buffer, c.ts[s.read]).Some?
    case Trim => s.consumer.Found? && s.read < |c.ts|
    case Notify => s.consumer.Notifying?
  }

  function Next<T>(c: Config<T>, s: State<T>, step: Step): State<T>
    requires Enabled(c, s, step)
  {
    match step
    case Produce => s.(buffer := s.buffer[c.ts[s.written] := c.values[s.written]], written := s.written + 1)
    case Block => s.(producer := Waiting)
    case Spurious => s.(producer := Ready)
    case Seek => s.(delivered := s.delivered + [Lookup(s.buffer, c.ts[s.read]).value], consumer := Found)
    case Trim => s.(current := c.ts[s.read], buffer := Pruned(s.buffer, c.ts[s.read], c.padding), consumer := Notifying)
    case Notify => s.(producer := Ready, consumer := Seeking, read := s.read + 1)
  }

  ghost predicate Reaches<T>(c: Config<T>, s: State<T>, steps: seq<Step>, s': State<T>)
    decreases |steps|
  {
    if steps == [] then s' == s
    else Enabled(c, s, steps[0]) && Reaches(c, Next(c, s, steps[0]), steps[1..], s')
  }

  // ------------------------------------------------------------------ invariant

  // How many reads have pruned.
  function PrunedReads<T>(s: State<T>): nat { if s.consumer.Notifying? then s.read + 1 else s.read }

  // How many values the consumer has.
  function Taken<T>(s: State<T>): nat { if s.consumer.Seeking? then s.read else s.read + 1 }

  ghost predicate Counts<T>(c: Config<T>, s: State<T>) {
    && Taken(s) <= s.written <= |c.ts|
    && s.delivered == c.values[..Taken(s)]
    && s.current == (if PrunedReads(s) == 0 then -1 else c.ts[PrunedReads(s) - 1])
    && |s.buffer| <= c.size
    && (s.producer.Waiting? ==> s.written < |c.ts|)
    && (s.producer.Waiting? && |s.buffer| < c.size ==> s.consumer.Notifying?)
  }

  ghost predicate Inv<T>(c: Config<T>, s: State<T>) { Counts(c, s) && Holds(c, s.buffer, s.current, s.written) }

  predicate Kept<T>(c: Config<T>, current: int, k: int) { current == -1 || k >= current - c.padding }

  // The buffer holds exactly the written entries from current - padding on.
  ghost predicate Holds<T>(c: Config<T>, buffer: map<int, T>, current: int, written: nat)
    requires written <= |c.ts|
  {
    && (forall i :: 0 <= i < written && Kept(c, current, c.ts[i]) ==>
          c.ts[i] in buffer && buffer[c.ts[i]] == c.values[i])
    && (forall k :: k in buffer ==> Kept(c, current, k) && k in c.ts[..written])
  }

  lemma {:induction false} CurrentIsWritten<T>(c: Config<T>, s: State<T>)
    requires Inv(c, s)
    ensures s.current == -1 || (s.written > 0 && s.current <= c.ts[s.written - 1])
  {
  }

  lemma {:induction false} ProduceHolds<T>(c: Config<T>, buffer: map<int, T>, current: int, w: nat)
    requires w < |c.ts| && Holds(c, buffer, current, w)
    requires current == -1 || (w > 0 && current <= c.ts[w - 1])
    ensures Holds(c, buffer[c.ts[w] := c.values[w]], current, w + 1)
  {
    assert c.ts[..w + 1] == c.ts[..w] + [c.ts[w]];
    assert Kept(c, current, c.ts[w]);
    forall i | 0 <= i < w && Kept(c, current, c.ts[i])
      ensures c.ts[i] in buffer && c.ts[i] != c.ts[w] && buffer[c.ts[i]] == c.values[i]
    {
    }
  }

  lemma {:induction false} ProduceCounts<T>(c: Config<T>, s: State<T>)
    requires Counts(c, s) && Enabled(c, s, Produce)
    ensures Counts(c, Next(c, s, Produce))
  {
  }

  lemma {:induction false} ProduceKeepsInv<T>(c: Config<T>, s: State<T>)
    requires Inv(c, s) && Enabled(c, s, Produce)
    ensures Inv(c, Next(c, s, Produce))
  {
    CurrentIsWritten(c, s);
    ProduceCounts(c, s);
    ProduceHolds(c, s.buffer, s.current, s.written);
  }

  lemma {:induction false} SeekFinds<T>(c: Config<T>, s: State<T>)
    requires Inv(c, s) && s.consumer.Seeking? && s.read < s.written
    ensures Lookup(s.buffer, c.ts[s.read]) == Some(c.values[s.read])
  {
    assert Kept(c, s.current, c.ts[s.read]);
  }

  lemma {:induction false} SeekKeepsInv<T>(c: Config<T>, s: State<T>)
    requires Inv(c, s) && Enabled(c, s, Seek)
    ensures Inv(c, Next(c, s, Seek))
  {
    var r := s.read;
    SeekFinds(c, s);
    assert c.values[..r + 1] == c.values[..r] + [c.values[r]];
  }

  lemma {:induction false} TrimKeepsInv<T>(c: Config<T>, s: State<T>)
    requires Inv(c, s) && Enabled(c, s, Trim)
    ensures Inv(c, Next(c, s, Trim))
  {
    var s' := Next(c, s, Trim);
    assert s'.buffer.Keys <= s.buffer.Keys;
    SubsetSize(s'.buffer.Keys, s.buffer.Keys);
    assert s.current != -1 ==> s.current < s'.current;
  }

  lemma {:induction false} SubsetSize(a: set<int>, b: set<int>)
    requires a <= b
    ensures |a| <= |b|
  {
    assert b == a + (b - a);
  }

  lemma {:induction false} StepKeepsInv<T>(c: Config<T>, s: State<T>, step: Step)
    requires Inv(c, s) && Enabled(c, s, step)
    ensures Inv(c, Next(c, s, step))
  {
    match step {
      case Produce => ProduceKeepsInv(c, s);
      case Block =>
      case Spurious =>
      case Seek => SeekKeepsInv(c, s);
      case Trim => TrimKeepsInv(c, s);
      case Notify =>
    }
  }

  // In every reachable state at most `size` entries are stored, and what the consumer has
  // is exactly the first values produced, in order and without a gap.
  lemma {:induction false} RunDeliversInOrder<T>(c: Config<T>, s: State<T>, steps: seq<Step>, s': State<T>)
    requires Inv(c, s) && Reaches(c, s, steps, s')
    ensures Inv(c, s')
    ensures |s'.buffer| <= c.size
    ensures |s'.delivered| <= |c.values| && s'.delivered == c.values[..|s'.delivered|]
    decreases |steps|
  {
    if steps != [] {
      StepKeepsInv(c, s, steps[0]);
      RunDeliversInOrder(c, Next(c, s, steps[0]), steps[1..], s');
    }
  }

  // ------------------------------------------------------------------ progress

  lemma {:induction false} AtMost(ts: seq<int>, keys: set<int>, lo: nat, hi: nat)
    requires lo <= hi <= |ts| && forall k :: k in keys ==> k in ts[lo..hi]
    ensures |keys| <= hi - lo
    decreases hi - lo
  {
    if lo < hi {
      assert ts[lo..hi] == [ts[lo]] + ts[lo + 1..hi];
      AtMost(ts, keys - {ts[lo]}, lo + 1, hi);
    } else {
      forall k ensures k !in keys {}
      assert keys == {};
    }
  }

  lemma {:induction false} AtLeast(ts: seq<int>, keys: set<int>, lo: nat, hi: nat)
    requires lo <= hi <= |ts| && Increasing(ts)
    requires forall i :: lo <= i < hi ==> ts[i] in keys
    ensures hi - lo <= |keys|
    decreases hi - lo
  {
    if lo < hi {
      AtLeast(ts, keys - {ts[lo]}, lo + 1, hi);
    }
  }

  // No thread can move on its own, spurious wake-ups aside.
  ghost predicate Stuck<T>(c: Config<T>, s: State<T>) {
    forall step: Step :: step != Spurious ==> !Enabled(c, s, step)
  }

  // After w values the last `size` of them fill the buffer and all lie within the padding of the
  // last: even a consumer that has read them all leaves them in place.
  predicate Blocks<T>(c: Config<T>, w: nat) {
    c.size <= w < |c.ts| && (c.size == 0 || c.ts[w - 1] - c.ts[w - c.size] <= c.padding)
  }

  ghost predicate Roomy<T>(c: Config<T>) {
    forall w: nat :: !Blocks(c, w)
  }

  lemma {:induction false} FewBeyond(ts: seq<int>, keys: set<int>, n: nat, w: nat, low: int)
    requires Increasing(ts) && n < w <= |ts| && ts[n] < low
    requires forall k :: k in keys ==> k in ts[..w] && k >= low
    ensures |keys| < w - n
  {
    forall k | k in keys
      ensures k in ts[n + 1..w]
    {
      var i :| 0 <= i < w && ts[i] == k;
      assert i > n;
      assert ts[n + 1..w][i - (n + 1)] == k;
    }
    AtMost(ts, keys, n + 1, w);
  }

  lemma {:induction false} FullOfLast<T>(c: Config<T>, keys: set<int>, w: nat)
    requires w < |c.ts| && c.size <= |keys|
    requires forall k :: k in keys ==> k in c.ts[..w] && k >= c.ts[w - 1] - c.padding
    ensures Blocks(c, w)
  {
    assert c.ts[0..w] == c.ts[..w];
    AtMost(c.ts, keys, 0, w);
    if c.size > 0 && c.ts[w - c.size] < c.ts[w - 1] - c.padding {
      FewBeyond(c.ts, keys, w - c.size, w, c.ts[w - 1] - c.padding);
    }
  }

  // When the consumer has read everything written, a full buffer holds the last `size` values.
  lemma {:induction false} CaughtUpBlocks<T>(c: Config<T>, s: State<T>)
    requires Inv(c, s) && s.consumer.Seeking? && s.read == s.written < |c.ts|
    requires |s.buffer| >= c.size
    ensures Blocks(c, s.written)
  {
    var w := s.written;
    assert w > 0 ==> s.current == c.ts[w - 1];
    forall k | k in s.buffer.Keys
      ensures k in c.ts[..w] && k >= c.ts[w - 1] - c.padding
    {
      assert Kept(c, s.current, k);
    }
    FullOfLast(c, s.buffer.Keys, w);
  }

  // Where nothing blocks, the only states without a next step are complete ones.
  lemma {:induction false} StuckMeansDone<T>(c: Config<T>, s: State<T>)
    requires Inv(c, s) && Stuck(c, s) && Roomy(c)
    ensures s.delivered == c.values
  {
    assert !Enabled(c, s, Trim) && !Enabled(c, s, Notify) && !Enabled(c, s, Seek);
    assert !Enabled(c, s, Produce) && !Enabled(c, s, Block);
    assert s.consumer.Seeking?;
    if s.read < s.written {
      SeekFinds(c, s);
    } else if s.written < |c.ts| {
      CaughtUpBlocks(c, s);
    }
  }

  // Bounds the steps still possible, spurious wake-ups aside.
  function Work<T>(c: Config<T>, s: State<T>): int {
    var stage := match s.consumer case Seeking => 0 case Found => 1 case Notifying => 2;
    2 * (|c.ts| - s.written) + 2 * (3 * (|c.ts| - s.read) - stage) + (if s.producer.Ready? then 1 else 0)
  }

  lemma {:induction false} StepUsesWork<T>(c: Config<T>, s: State<T>, step: Step)
    requires Inv(c, s) && Enabled(c, s, step) && step != Spurious
    ensures 0 <= Work(c, Next(c, s, step)) < Work(c, s)
  {
    StepKeepsInv(c, s, step);
  }

  lemma {:induction false} RunsAreBounded<T>(c: Config<T>, s: State<T>, steps: seq<Step>, s': State<T>)
    requires Inv(c, s) && Reaches(c, s, steps, s') && Spurious !in steps
    ensures |steps| <= Work(c, s)
    decreases |steps|
  {
    if steps != [] {
      StepUsesWork(c, s, steps[0]);
      StepKeepsInv(c, s, steps[0]);
      RunsAreBounded(c, Next(c, s, steps[0]), steps[1..], s');
    }
  }

  lemma {:induction false} RunsEndStuck<T>(c: Config<T>, s: State<T>) returns (steps: seq<Step>, s': State<T>)
    requires Inv(c, s)
    ensures Spurious !in steps && Reaches(c, s, steps, s') && Stuck(c, s')
    decreases Work(c, s)
  {
    if Stuck(c, s) {
      steps, s' := [], s;
    } else {
      var step: Step :| step != Spurious && Enabled(c, s, step);
      StepUsesWork(c, s, step);
      StepKeepsInv(c, s, step);
      var rest;
      rest, s' := RunsEndStuck(c, Next(c, s, step));
      steps := [step] + rest;
      assert steps[1..] == rest;
    }
  }

  // ------------------------------------------------------------------ the bound is tight

  lemma {:induction false} LastAreKept<T>(c: Config<T>, s: State<T>, i: nat)
    requires Inv(c, s) && c.size > 0 && Blocks(c, s.written) && s.written - c.size <= i < s.written
    ensures c.ts[i] in s.buffer
  {
    CurrentIsWritten(c, s);
    assert c.ts[s.written - c.size] <= c.ts[i];
    assert Kept(c, s.current, c.ts[i]);
  }

  // At a blocking count the buffer is full whatever has been read.
  lemma {:induction false} BlockingIsFull<T>(c: Config<T>, s: State<T>)
    requires Inv(c, s) && Blocks(c, s.written)
    ensures |s.buffer| >= c.size
  {
    var w := s.written;
    if c.size > 0 {
      forall i | w - c.size <= i < w
        ensures c.ts[i] in s.buffer.Keys
      {
        LastAreKept(c, s, i);
      }
      AtLeast(c.ts, s.buffer.Keys, w - c.size, w);
    }
  }

  // No run passes a blocking count.
  lemma {:induction false} FullBufferNeverDrains<T>(c: Config<T>, s: State<T>, steps: seq<Step>, s': State<T>, w: nat)
    requires Inv(c, s) && Reaches(c, s, steps, s')
    requires Blocks(c, w) && s.written <= w
    ensures s'.written <= w && |s'.delivered| <= w
    decreases |steps|
  {
    if steps != [] {
      if s.written == w { BlockingIsFull(c, s); }
      StepKeepsInv(c, s, steps[0]);
      FullBufferNeverDrains(c, Next(c, s, steps[0]), steps[1..], s', w);
    }
  }

  ghost predicate Ends<T>(c: Config<T>, steps: seq<Step>, s: State<T>) {
    Reaches(c, Init(), steps, s) && Stuck(c, s)
  }

  // For every stream, size and padding: every run that ends delivers everything exactly when
  // no count blocks, that is, when no `size` values in a row, with more to come, lie within
  // the padding of the last of them.
  lemma {:induction false} EveryEndDeliversIff<T>(c: Config<T>)
    ensures Roomy(c) <==> forall steps, s :: Ends(c, steps, s) ==> s.delivered == c.values
  {
    var init := Init<T>();
    assert Inv(c, init);
    if Roomy(c) {
      forall steps, s | Ends(c, steps, s) ensures s.delivered == c.values {
        RunDeliversInOrder(c, init, steps, s);
        StuckMeansDone(c, s);
      }
    } else {
      var w: nat :| Blocks(c, w);
      var steps, s := RunsEndStuck(c, init);
      FullBufferNeverDrains(c, init, steps, s, w);
      assert Ends(c, steps, s) && s.delivered != c.values;
    }
  }

  lemma {:induction false} Spaced<T>(c: Config<T>, i: nat, j: nat)
    requires i <= j < |c.ts|
    ensures c.ts[j] - c.ts[i] >= j - i
    ensures c.Consecutive() ==> c.ts[j] - c.ts[i] == j - i
    decreases j
  {
    if i < j { Spaced(c, i, j - 1); }
  }

  // A size beyond padding plus one is enough for any stream.
  lemma {:induction false} SizeBeyondPaddingIsRoomy<T>(c: Config<T>)
    requires c.size > c.padding + 1
    ensures Roomy(c)
  {
    forall w: nat
      ensures !Blocks(c, w)
    {
      if c.size <= w < |c.ts| { Spaced(c, w - c.size, w - 1); }
    }
  }

  // And needed for consecutive timestamps longer than the buffer.
  lemma {:induction false} ProgressIffRoomBeyondPadding<T>(c: Config<T>)
    requires c.Consecutive() && |c.ts| > c.size
    ensures c.size > c.padding + 1 <==>
      forall steps, s :: Ends(c, steps, s) ==> s.delivered == c.values
  {
    EveryEndDeliversIff(c);
    if c.size > c.padding + 1 {
      SizeBeyondPaddingIsRoomy(c);
    } else {
      if c.size > 0 { Spaced(c, 0, c.size - 1); }
      assert Blocks(c, c.size);
    }
  }

  // The default padding of 5 and size of 100, and every larger size, deliver any stream; so does
  // any size on a stream without a blocking count.
  lemma {:induction false} EveryRunDelivers<T>(c: Config<T>, steps: seq<Step>, s: State<T>)
    requires c.size > c.padding + 1 || Roomy(c)
    requires Reaches(c, Init(), steps, s) && Spurious !in steps
    ensures |steps| <= 8 * |c.ts| + 1
    ensures Stuck(c, s) ==> s.delivered == c.values
  {
    assert Inv(c, Init());
    RunsAreBounded(c, Init(), steps, s);
    RunDeliversInOrder(c, Init(), steps, s);
    if Stuck(c, s) {
      if c.size > c.padding + 1 { SizeBeyondPaddingIsRoomy(c); }
      StuckMeansDone(c, s);
    }
  }
}
