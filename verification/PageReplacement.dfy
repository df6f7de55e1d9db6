/** pkg/memory/page_replacement.go: physical frames, victim selection and page faults. */
module PageReplacement {
  import opened Paging

  datatype Policy = Fifo | Lru | Clock | OtherPolicy

  datatype Frame = Frame(
    pfn: nat,
    pid: int,
    vpn: nat,
    occupied: bool,
    loadedTick: int,
    lastUsedTick: int,
    useBit: bool,
    dirty: bool
  )

  datatype Memory = Memory(
    frames: seq<Frame>,
    hand: nat,
    tick: int,
    policy: Policy,
    faults: nat,
    evictions: nat,
    swapWrites: nat,
    swapReads: nat
  ) {
    ghost predicate Valid() {
      hand < |frames|
    }
  }

  function Booted(numFrames: int, policy: Policy): (m: Memory)
    ensures m.Valid()
  {
    var n := if numFrames <= 0 then 4 else numFrames;
    Memory(seq(n, i requires 0 <= i => Frame(i, 0, 0, false, 0, 0, false, false)), 0, 0, policy, 0, 0, 0, 0)
  }

  /** A booted memory has as many frames as asked for, or four, all of them free and clean. */
  lemma BootedFree(numFrames: int, policy: Policy)
    ensures var m := Booted(numFrames, policy);
            && |m.frames| == (if numFrames > 0 then numFrames else 4) && m.policy == policy
            && m.faults == m.evictions == m.swapReads == m.swapWrites == 0
            && forall f :: 0 <= f < |m.frames| ==>
                 m.frames[f].pfn == f && !m.frames[f].occupied && !m.frames[f].dirty && !m.frames[f].useBit
  {
  }

  // ---- Victim selection ----

  function FirstFree(frames: seq<Frame>): (i: nat)
    ensures i <= |frames|
    ensures i < |frames| ==> !frames[i].occupied
    ensures forall j :: 0 <= j < i ==> frames[j].occupied
  {
    if frames == [] || !frames[0].occupied then 0 else 1 + FirstFree(frames[1..])
  }

  /** i is the first index with the smallest value. */
  ghost predicate IsFirstMin(values: seq<int>, i: nat) {
    && i < |values|
    && (forall j :: 0 <= j < |values| ==> values[i] <= values[j])
    && (forall j :: 0 <= j < i ==> values[i] < values[j])
  }

  function FirstMin(values: seq<int>): (i: nat)
    requires values != []
    ensures IsFirstMin(values, i)
  {
    if |values| == 1 then 0
    else
      var j := FirstMin(values[1..]);
      if values[1..][j] < values[0] then 1 + j else 0
  }

  function Loaded(frames: seq<Frame>): (v: seq<int>)
    ensures |v| == |frames|
  {
    seq(|frames|, i requires 0 <= i < |frames| => frames[i].loadedTick)
  }

  function LastUsed(frames: seq<Frame>): (v: seq<int>)
    ensures |v| == |frames|
  {
    seq(|frames|, i requires 0 <= i < |frames| => frames[i].lastUsedTick)
  }

  function UseBits(frames: seq<Frame>): nat {
    if frames == [] then 0 else (if frames[0].useBit then 1 else 0) + UseBits(frames[1..])
  }

  lemma {:induction false} ClearingShrinks(frames: seq<Frame>, i: nat)
    requires i < |frames| && frames[i].useBit
    ensures UseBits(frames[i := frames[i].(useBit := false)]) < UseBits(frames)
  {
    var after := frames[i := frames[i].(useBit := false)];
    if i == 0 {
      assert after[1..] == frames[1..];
    } else {
      assert after[1..] == frames[1..][i - 1 := frames[1..][i - 1].(useBit := false)];
      ClearingShrinks(frames[1..], i - 1);
    }
  }

  function After(i: nat, n: nat): (r: nat)
    requires i < n
    ensures r < n && r == (i + 1) % n
  {
    if i + 1 == n then 0 else i + 1
  }

  /** The clock loop: frames as it leaves them, and the victim. */
  function Sweep(frames: seq<Frame>, hand: nat): (r: (seq<Frame>, nat))
    requires hand < |frames|
    ensures |r.0| == |frames| && r.1 < |frames|
    decreases UseBits(frames)
  {
    if !frames[hand].useBit then (frames, hand)
    else
      ClearingShrinks(frames, hand);
      Sweep(frames[hand := frames[hand].(useBit := false)], After(hand, |frames|))
  }

  /** i is passed over when the hand goes round from `hand` to stop at v. */
  predicate Passed(hand: nat, v: nat, i: nat) {
    if hand <= v then hand <= i < v else i >= hand || i < v
  }

  /** Second chance: the victim is the first frame round from the hand with a clear use bit, and
      exactly the frames passed over lose theirs; if every bit is set the hand comes back to where
      it started, having cleared them all. */
  lemma {:induction false} SecondChance(frames: seq<Frame>, hand: nat)
    requires hand < |frames|
    ensures var (swept, v) := Sweep(frames, hand);
            if exists j :: 0 <= j < |frames| && !frames[j].useBit then
              && !frames[v].useBit
              && (forall i :: 0 <= i < |frames| && Passed(hand, v, i) ==> frames[i].useBit)
              && (forall i :: 0 <= i < |frames| ==>
                    swept[i] == if Passed(hand, v, i) then frames[i].(useBit := false) else frames[i])
            else
              && v == hand
              && (forall i :: 0 <= i < |frames| ==> swept[i] == frames[i].(useBit := false))
    decreases UseBits(frames)
  {
    if frames[hand].useBit {
      var next := frames[hand := frames[hand].(useBit := false)];
      ClearingShrinks(frames, hand);
      SecondChance(next, After(hand, |frames|));
      assert !next[hand].useBit;
      var (swept, v) := Sweep(frames, hand);
      if v != hand {
        assert !frames[v].useBit;
        forall i | 0 <= i < |frames| && Passed(hand, v, i)
          ensures frames[i].useBit
        {
          assert i != hand ==> Passed(After(hand, |frames|), v, i);
        }
      } else {
        forall i | 0 <= i < |frames|
          ensures frames[i].useBit && swept[i] == frames[i].(useBit := false)
        {
          assert i != hand ==> Passed(After(hand, |frames|), v, i);
        }
      }
    }
  }

  /** The frames and hand after the policy has run on a full memory, and its victim. */
  function Selected(m: Memory): (r: (seq<Frame>, nat, nat))
    requires m.Valid()
    ensures |r.0| == |m.frames| && r.1 < |m.frames| && r.2 < |m.frames|
  {
    match m.policy
    case Fifo => (m.frames, m.hand, FirstMin(Loaded(m.frames)))
    case Lru => (m.frames, m.hand, FirstMin(LastUsed(m.frames)))
    case Clock =>
      var (swept, v) := Sweep(m.frames, m.hand);
      (swept, After(v, |m.frames|), v)
    case OtherPolicy => (m.frames, m.hand, 0)
  }

  function NewFrame(i: nat, pid: int, vpn: nat, tick: int): Frame {
    Frame(i, pid, vpn, true, tick, tick, true, false)
  }

  /** allocateFrame: the frame chosen for (pid, vpn) and the memory with it in place. */
  function Allocated(m: Memory, pid: int, vpn: nat): (r: (Memory, nat))
    requires m.Valid()
    ensures r.0.Valid() && |r.0.frames| == |m.frames| && r.1 < |m.frames|
  {
    var i := FirstFree(m.frames);
    if i < |m.frames| then
      (m.(frames := m.frames[i := NewFrame(i, pid, vpn, m.tick)]), i)
    else
      var (swept, hand, v) := Selected(m);
      (m.(frames := swept[v := NewFrame(v, pid, vpn, m.tick)], hand := hand, evictions := m.evictions + 1,
          swapWrites := m.swapWrites + if swept[v].dirty then 1 else 0), v)
  }

  lemma AllocatedIgnoresCounts(m: Memory, pid: int, vpn: nat)
    requires m.Valid()
    ensures var (m', v) := Allocated(m, pid, vpn);
            Allocated(m.(faults := m.faults + 1, swapReads := m.swapReads + 1), pid, vpn) ==
            (m'.(faults := m'.faults + 1, swapReads := m'.swapReads + 1), v)
  {
  }

  /** A free frame is used first, and nothing is evicted. */
  lemma FreeFrameFirst(m: Memory, pid: int, vpn: nat)
    requires m.Valid() && exists i :: 0 <= i < |m.frames| && !m.frames[i].occupied
    ensures var (m', v) := Allocated(m, pid, vpn);
            && !m.frames[v].occupied && (forall j :: 0 <= j < v ==> m.frames[j].occupied)
            && m' == m.(frames := m.frames[v := NewFrame(v, pid, vpn, m.tick)])
  {
  }

  /** In a full memory the victim is what the policy's name says, a dirty victim costs a swap write,
      and the other frames keep their pages and times. */
  lemma EvictsByPolicy(m: Memory, pid: int, vpn: nat)
    requires m.Valid() && forall i :: 0 <= i < |m.frames| ==> m.frames[i].occupied
    ensures var (m', v) := Allocated(m, pid, vpn);
            && (m.policy.Fifo? ==>
                  forall j :: 0 <= j < |m.frames| ==> m.frames[v].loadedTick <= m.frames[j].loadedTick)
            && (m.policy.Lru? ==>
                  forall j :: 0 <= j < |m.frames| ==> m.frames[v].lastUsedTick <= m.frames[j].lastUsedTick)
            && (m.policy.Clock? ==>
                  || !m.frames[v].useBit
                  || (v == m.hand && forall j :: 0 <= j < |m.frames| ==> m.frames[j].useBit))
            && m'.evictions == m.evictions + 1
            && m'.swapWrites == m.swapWrites + (if m.frames[v].dirty then 1 else 0)
            && m'.frames[v] == NewFrame(v, pid, vpn, m.tick)
            && m'.hand == (if m.policy.Clock? then (v + 1) % |m.frames| else m.hand)
            && forall j :: 0 <= j < |m.frames| && j != v ==>
                 m'.frames[j].(useBit := false) == m.frames[j].(useBit := false)
  {
    assert FirstFree(m.frames) == |m.frames|;
    if m.policy.Clock? {
      SecondChance(m.frames, m.hand);
    } else if m.policy.Fifo? {
      var values := Loaded(m.frames);
      assert forall j :: 0 <= j < |values| ==> values[j] == m.frames[j].loadedTick;
    } else if m.policy.Lru? {
      var values := LastUsed(m.frames);
      assert forall j :: 0 <= j < |values| ==> values[j] == m.frames[j].lastUsedTick;
    }
  }

  /** The metadata of the frame behind an access. */
  function Touched(m: Memory, pfn: nat, isWrite: bool): (r: Memory)
    requires m.Valid() && pfn < |m.frames|
    ensures r.Valid() && |r.frames| == |m.frames|
  {
    var f := m.frames[pfn];
    m.(frames := m.frames[pfn := f.(lastUsedTick := m.tick, useBit := true, dirty := f.dirty || isWrite)])
  }
}
