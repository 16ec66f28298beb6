/** The instance slots of the compiled-module runtime: `take_slot` and
    `give_slot` of kernel/src/forge_rt.rs as atomic steps of any number of
    threads, in any interleaving. */
module ForgeSlots {
  import opened Util

  const MAX_SLOTS: nat := 1024
  const WORDS: nat := MAX_SLOTS / 64
  const REGION_BASE: nat := 0x800_0000_0000
  const INSTANCE_STRIDE: nat := 0x4_0000_0000
  const CODE_BASE: nat := 0x1800_0000_0000

  /** Where a thread is in `take_slot`: outside, about to load a word of the
      bitmap (word 16: past the last), about to exchange the word it loaded, or
      about to put the high-water mark back. */
  datatype Pc = Outside | AtWord(word: nat) | Loaded(word: nat, bits: set<nat>) | Overshot

  /** `next` and `free` are `NEXT_SLOT` and `SLOT_FREE`; `owned` are the slots
      handed out. */
  datatype Sys = Sys(next: nat, free: set<nat>, owned: set<nat>, pc: map<nat, Pc>)

  datatype Step =
    | Enter(thread: nat)
    | Load(thread: nat)
    | Exchange(thread: nat)
    | Add(thread: nat)
    | Clamp(thread: nat)
    | Give(slot: nat)

  function Word(free: set<nat>, w: nat): set<nat> { set s | s in free && s / 64 == w }

  function PcOf(s: Sys, t: nat): Pc { if t in s.pc then s.pc[t] else Outside }

  /** `trailing_zeros`: the lowest bit set. */
  ghost predicate Lowest(bits: set<nat>, b: nat) { b in bits && forall x | x in bits :: b <= x }

  ghost predicate Enabled(s: Sys, e: Step) {
    match e
    case Enter(t) => PcOf(s, t).Outside?
    case Load(t) => PcOf(s, t).AtWord? && PcOf(s, t).word < WORDS
    case Exchange(t) => PcOf(s, t).Loaded? && exists b :: Lowest(PcOf(s, t).bits, b)
    case Add(t) => PcOf(s, t).AtWord? && PcOf(s, t).word >= WORDS
    case Clamp(t) => PcOf(s, t).Overshot?
    case Give(slot) => slot in s.owned
  }

  /** The slot a step hands out, if it does. */
  ghost function Granted(s: Sys, e: Step): Option<nat>
    requires Enabled(s, e)
  {
    match e
    case Exchange(t) =>
      var p := PcOf(s, t);
      var b :| Lowest(p.bits, b);
      if Word(s.free, p.word) == p.bits then Some(b) else None
    case Add(t) => if s.next < MAX_SLOTS then Some(s.next) else None
    case _ => None
  }

  /** `give_slot`. */
  function Given(s: Sys, slot: nat): Sys { s.(free := s.free + {slot}, owned := s.owned - {slot}) }

  ghost function After(s: Sys, e: Step): Sys
    requires Enabled(s, e)
  {
    match e
    case Enter(t) => s.(pc := s.pc[t := AtWord(0)])
    case Load(t) =>
      var w := PcOf(s, t).word;
      var bits := Word(s.free, w);
      s.(pc := s.pc[t := if bits == {} then AtWord(w + 1) else Loaded(w, bits)])
    case Exchange(t) =>
      (match Granted(s, e)
       case Some(b) => s.(free := s.free - {b}, owned := s.owned + {b}, pc := s.pc[t := Outside])
       case None => s.(pc := s.pc[t := AtWord(PcOf(s, t).word)]))
    case Add(t) =>
      (match Granted(s, e)
       case Some(b) => s.(next := s.next + 1, owned := s.owned + {b}, pc := s.pc[t := Outside])
       case None => s.(next := s.next + 1, pc := s.pc[t := Overshot]))
    case Clamp(t) => s.(next := MAX_SLOTS, pc := s.pc[t := Outside])
    case Give(slot) => Given(s, slot)
  }

  ghost predicate Inv(s: Sys) {
    && s.free !! s.owned
    && (forall n: nat :: n in s.free || n in s.owned <==> n < s.next && n < MAX_SLOTS)
    && (forall t | t in s.pc :: s.pc[t].Overshot? ==> s.next >= MAX_SLOTS)
  }

  /** Each step keeps owned, free and fresh slots apart, hands out only a slot
      nobody owns, and never takes one away. */
  lemma StepOk(s: Sys, e: Step)
    requires Inv(s) && Enabled(s, e)
    ensures Inv(After(s, e))
    ensures Granted(s, e).Some? ==>
      var n := Granted(s, e).value; n < MAX_SLOTS && n !in s.owned && After(s, e).owned == s.owned + {n}
    ensures Granted(s, e).None? && !e.Give? ==> After(s, e).owned == s.owned
  {
    if e.Exchange? && Granted(s, e).Some? {
      assert Granted(s, e).value in Word(s.free, PcOf(s, e.thread).word);
    }
  }

  ghost const Start: Sys := Sys(0, {}, {}, map[])

  ghost predicate Runs(s: Sys, steps: seq<Step>)
    decreases |steps|
  {
    steps == [] || (Enabled(s, steps[0]) && Runs(After(s, steps[0]), steps[1..]))
  }

  ghost function Ends(s: Sys, steps: seq<Step>): Sys
    requires Runs(s, steps)
    decreases |steps|
  {
    if steps == [] then s else Ends(After(s, steps[0]), steps[1..])
  }

  /** Every interleaving from the start. */
  lemma {:induction false} EveryRun(s: Sys, steps: seq<Step>)
    requires Inv(s) && Runs(s, steps)
    ensures Inv(Ends(s, steps))
    decreases |steps|
  {
    hide Inv, After, Enabled;
    if steps != [] {
      StepOk(s, steps[0]);
      EveryRun(After(s, steps[0]), steps[1..]);
    }
  }

  lemma FromStart(steps: seq<Step>)
    requires Runs(Start, steps)
    ensures Inv(Ends(Start, steps))
  {
    EveryRun(Start, steps);
  }

  /** Between being handed out and given back a slot has one owner: a later step
      of the run that hands it out comes only after a step that gave it back. */
  lemma {:induction false} OneOwner(s: Sys, steps: seq<Step>, slot: nat)
    requires Inv(s) && Runs(s, steps) && slot in s.owned
    requires forall i | 0 <= i < |steps| :: steps[i] != Give(slot)
    ensures slot in Ends(s, steps).owned && !Hands(s, steps, slot)
    decreases |steps|
  {
    if steps != [] {
      StepOk(s, steps[0]);
      assert forall i | 0 <= i < |steps[1..]| :: steps[1..][i] == steps[i + 1];
      assert slot in After(s, steps[0]).owned;
      OneOwner(After(s, steps[0]), steps[1..], slot);
    }
  }

  /** Some step of the run hands `slot` out. */
  ghost predicate Hands(s: Sys, steps: seq<Step>, slot: nat)
    requires Runs(s, steps)
    decreases |steps|
  {
    steps != [] && (Granted(s, steps[0]) == Some(slot) || Hands(After(s, steps[0]), steps[1..], slot))
  }

  function Base(slot: nat): nat { REGION_BASE + slot * 0x4_0000_0000 }

  /** An access of up to eight bytes at a u32 address plus a u32 offset stays in
      its slot, below the code and clear of every other slot, although nothing
      checks it. */
  lemma AccessStaysInside(slot: nat, other: nat, address: nat, offset: nat, len: nat)
    requires slot < MAX_SLOTS && other < MAX_SLOTS && slot != other
    requires address <= 0xFFFF_FFFF && offset <= 0xFFFF_FFFF && len <= 8
    ensures var at := Base(slot) + address + offset;
      && at + len <= Base(slot) + 0x2_0000_1000
      && at + len <= Base(slot) + INSTANCE_STRIDE <= CODE_BASE
      && (at + len <= Base(other) || Base(other) + INSTANCE_STRIDE <= at)
  {
    if slot < other {
      assert Base(other) == Base(slot) + (other - slot) * 0x4_0000_0000;
    } else {
      assert Base(slot) == Base(other) + (slot - other) * 0x4_0000_0000;
    }
  }
}
