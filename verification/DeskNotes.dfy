/** The desk's notes (dapp/btcswap-desk.js lockable, exclusive and the accepted phase): many swaps share one
    inventory, a pick reads the store, waits, and saves later, and other swaps step in between. */
module DeskNotes {
  import opened Wrappers
  import opened SwapChain
  import D = SwapDesk

  /** A note: the outpoint it sits at and its amount. */
  datatype Note = Note(at: int, amount: nat)

  /** One stored swap; `notes` are the inputs of its built lock. */
  datatype Rec = Rec(phase: D.Phase, want: nat, notes: Option<seq<Note>>)

  /** A pick under way: for which swap, and what the store showed as held when it began. */
  datatype Pick = Pick(id: int, held: set<int>)

  datatype Store = Store(recs: map<int, Rec>, picking: Option<Pick>)

  /** Whether a swap holds its notes: its lock is built and neither dropped nor settled. */
  predicate Holds(r: Rec) {
    r.notes.Some? && (r.phase.Accepted? || r.phase.Locking? || r.phase.Locked? || r.phase.Offered? || r.phase.Refunding?)
  }

  function Outpoints(notes: seq<Note>): set<int> {
    set n | n in notes :: n.at
  }

  function HeldBy(r: Rec): set<int> {
    if Holds(r) then Outpoints(r.notes.value) else {}
  }

  function Held(recs: map<int, Rec>): set<int> {
    set id, o | id in recs && o in HeldBy(recs[id]) :: o
  }

  function Total(notes: seq<Note>): nat {
    if notes == [] then 0 else Total(notes[..|notes| - 1]) + notes[|notes| - 1].amount
  }

  /** No outpoint twice. */
  ghost predicate Distinct(notes: seq<Note>) {
    forall i, j :: 0 <= i < j < |notes| ==> notes[i].at != notes[j].at
  }

  /** The notes no open swap holds. */
  function Free(notes: seq<Note>, held: set<int>): (r: seq<Note>)
    ensures forall n :: n in r <==> n in notes && n.at !in held
  {
    if notes == [] then []
    else Free(notes[..|notes| - 1], held) + (if notes[|notes| - 1].at in held then [] else [notes[|notes| - 1]])
  }

  /** The shortest run of notes from the front that covers an amount, if there is one. */
  ghost predicate Chooses(notes: seq<Note>, want: nat, k: nat) {
    k <= |notes| && Total(notes[..k]) >= want && (k > 0 ==> Total(notes[..k - 1]) < want)
  }

  /** The greedy loop of the accepted phase. */
  method Choose(notes: seq<Note>, want: nat) returns (chosen: Option<seq<Note>>)
    ensures chosen.Some? ==> |chosen.value| <= |notes| && chosen.value == notes[..|chosen.value|] && Chooses(notes, want, |chosen.value|)
    ensures chosen.None? <==> Total(notes) < want
  {
    var sum, k := 0, 0;
    while k < |notes| && sum < want
      invariant k <= |notes| && sum == Total(notes[..k])
      invariant k > 0 ==> Total(notes[..k - 1]) < want
    {
      assert notes[..k + 1][..k] == notes[..k];
      sum := sum + notes[k].amount;
      k := k + 1;
    }
    assert k == |notes| ==> notes[..k] == notes;
    if sum < want {
      return None;
    }
    TotalGrows(notes, k);
    return Some(notes[..k]);
  }

  lemma {:induction false} TotalGrows(notes: seq<Note>, k: nat)
    requires k <= |notes|
    ensures Total(notes[..k]) <= Total(notes)
  {
    if k == |notes| {
      assert notes[..k] == notes;
    } else {
      assert notes[..|notes| - 1][..k] == notes[..k];
      TotalGrows(notes[..|notes| - 1], k);
    }
  }

  lemma {:induction false} FreeIsDistinct(notes: seq<Note>, held: set<int>)
    requires Distinct(notes)
    ensures Distinct(Free(notes, held))
  {
    if notes != [] {
      FreeIsDistinct(notes[..|notes| - 1], held);
      var front, last := Free(notes[..|notes| - 1], held), notes[|notes| - 1];
      forall n | n in front ensures n.at != last.at {
        assert n in notes[..|notes| - 1];
      }
    }
  }

  // ----- the store, stepped by many swaps at once

  datatype Event =
    | Receive(id: int, want: nat)
    | BeginPick(id: int)
    | EndPick(inventory: seq<Note>, chosen: Option<seq<Note>>)
    | Move(id: int, phase: D.Phase)
    | Crash

  /** The moves of one swap besides its pick: those of the desk's `advance`. */
  predicate MoveOk(r: Rec, phase: D.Phase) {
    || phase == r.phase
    || (r.phase.Accepted? && (phase.Aborted? || (phase.Locking? && r.notes.Some?)))
    || (r.phase.Locking? && phase.Locked?)
    || (r.phase.Locked? && phase.Offered?)
    || (r.phase.Offered? && (phase.Refunding? || phase.Taking? || phase.Lost?))
    || (r.phase.Refunding? && (phase.Refunded? || phase.Taking? || phase.Lost?))
    || (r.phase.Taking? && (phase.Done? || phase.Lost?))
  }

  /** One pick at a time; a swap steps only after its own pick is over; the inventory read by a pick is
      whatever the chain then shows, no outpoint twice. */
  ghost predicate Enabled(s: Store, e: Event) {
    match e
    case Receive(id, _) => id !in s.recs
    case BeginPick(id) => s.picking.None? && id in s.recs && s.recs[id].phase.Accepted? && s.recs[id].notes.None?
    case EndPick(inventory, chosen) =>
      && s.picking.Some? && s.picking.value.id in s.recs && Distinct(inventory)
      && var free, want := Free(inventory, s.picking.value.held), s.recs[s.picking.value.id].want;
         if chosen.Some? then
           |chosen.value| <= |free| && chosen.value == free[..|chosen.value|] && Chooses(free, want, |chosen.value|)
         else Total(free) < want
    case Move(id, phase) => id in s.recs && (s.picking.Some? ==> s.picking.value.id != id) && MoveOk(s.recs[id], phase)
    case Crash => true
  }

  function Next(s: Store, e: Event): Store {
    match e
    case Receive(id, want) => s.(recs := s.recs[id := Rec(D.Accepted, want, None)])
    case BeginPick(id) => s.(picking := Some(Pick(id, Held(s.recs))))
    case EndPick(_, chosen) =>
      if s.picking.None? || s.picking.value.id !in s.recs || chosen.None? then s.(picking := None) else
      var id := s.picking.value.id;
      Store(s.recs[id := s.recs[id].(notes := chosen)], None)
    case Move(id, phase) => if id in s.recs then s.(recs := s.recs[id := s.recs[id].(phase := phase)]) else s
    case Crash => s.(picking := None)
  }

  /** Which swaps a step can move, and how, is what the desk's `advance` does. */
  lemma AdvanceMoves(p: Policy, ch: Chain, rec: D.Record, v: D.View, want: nat, notes: seq<Note>)
    ensures var s := D.Plan(p, ch, rec, v);
            var r := Rec(rec.phase, want, if s.after.lockBuilt then Some(notes) else None);
            s.before.phase == rec.phase && MoveOk(r, s.after.phase)
  {
  }

  ghost predicate Inv(s: Store) {
    && (forall id :: id in s.recs && Holds(s.recs[id]) ==> Distinct(s.recs[id].notes.value) && Total(s.recs[id].notes.value) >= s.recs[id].want)
    && (forall i, j :: i in s.recs && j in s.recs && i != j ==> HeldBy(s.recs[i]) !! HeldBy(s.recs[j]))
    && (forall id :: id in s.recs && s.recs[id].notes.None? ==> s.recs[id].phase.Accepted? || s.recs[id].phase.Aborted?)
    && (s.picking.Some? ==>
          var id := s.picking.value.id;
          id in s.recs && s.recs[id].phase.Accepted? && s.recs[id].notes.None? && Held(s.recs) <= s.picking.value.held)
  }

  /** Only a pick adds to what is held. */
  lemma MoveOnlyReleases(r: Rec, phase: D.Phase)
    requires MoveOk(r, phase) && (r.notes.None? ==> r.phase.Accepted? || r.phase.Aborted?)
    ensures HeldBy(r.(phase := phase)) <= HeldBy(r)
    ensures r.notes.None? ==> phase.Accepted? || phase.Aborted?
  {
  }

  lemma InHeld(recs: map<int, Rec>, id: int)
    requires id in recs
    ensures HeldBy(recs[id]) <= Held(recs)
  {
  }

  lemma ChosenIsApart(recs: map<int, Rec>, inventory: seq<Note>, held: set<int>, k: nat, j: int)
    requires Distinct(inventory) && Held(recs) <= held && k <= |Free(inventory, held)| && j in recs
    ensures Distinct(Free(inventory, held)[..k])
    ensures HeldBy(recs[j]) !! Outpoints(Free(inventory, held)[..k])
  {
    FreeIsDistinct(inventory, held);
    InHeld(recs, j);
    forall n | n in Free(inventory, held)[..k] ensures n.at !in held {
      assert n in Free(inventory, held);
    }
  }

  lemma PickKeeps(s: Store, e: Event)
    requires Inv(s) && e.EndPick? && Enabled(s, e)
    ensures Inv(Next(s, e))
  {
    if e.chosen.Some? {
      forall j | j in s.recs ensures HeldBy(s.recs[j]) !! Outpoints(e.chosen.value) && Distinct(e.chosen.value) {
        ChosenIsApart(s.recs, e.inventory, s.picking.value.held, |e.chosen.value|, j);
      }
    }
  }

  lemma MoveKeeps(s: Store, e: Event)
    requires Inv(s) && e.Move? && Enabled(s, e)
    ensures Inv(Next(s, e))
  {
    var s' := Next(s, e);
    MoveOnlyReleases(s.recs[e.id], e.phase);
    forall i | i in s'.recs ensures HeldBy(s'.recs[i]) <= HeldBy(s.recs[i]) {
    }
    assert Held(s'.recs) <= Held(s.recs);
  }

  lemma StepKeeps(s: Store, e: Event)
    requires Inv(s) && Enabled(s, e)
    ensures Inv(Next(s, e))
  {
    match e
    case EndPick(_, _) => PickKeeps(s, e);
    case Move(_, _) => MoveKeeps(s, e);
    case Receive(id, _) =>
      var s' := Next(s, e);
      assert HeldBy(s'.recs[id]) == {};
      assert forall i :: i in s'.recs && i != id ==> i in s.recs && s'.recs[i] == s.recs[i];
      assert Held(s'.recs) <= Held(s.recs);
    case _ =>
  }

  function Run(events: seq<Event>): Store {
    if events == [] then Store(map[], None) else Next(Run(events[..|events| - 1]), events[|events| - 1])
  }

  ghost predicate Legal(events: seq<Event>) {
    events != [] ==> Legal(events[..|events| - 1]) && Enabled(Run(events[..|events| - 1]), events[|events| - 1])
  }

  lemma {:induction false} RunKeepsInv(events: seq<Event>)
    requires Legal(events)
    ensures Inv(Run(events))
  {
    if events != [] {
      RunKeepsInv(events[..|events| - 1]);
      StepKeeps(Run(events[..|events| - 1]), events[|events| - 1]);
    }
  }

  /** Under any interleaving of swaps, picks and crashes, no note backs two live locks, a live lock's notes
      are distinct outpoints, and they cover the amount locked. */
  lemma NoNoteTwice(events: seq<Event>, i: int, j: int)
    requires Legal(events)
    requires i in Run(events).recs && j in Run(events).recs
    requires Holds(Run(events).recs[i]) && Holds(Run(events).recs[j])
    ensures var a, b := Run(events).recs[i], Run(events).recs[j];
            && Distinct(a.notes.value) && Total(a.notes.value) >= a.want
            && (i != j ==> Outpoints(a.notes.value) !! Outpoints(b.notes.value))
  {
    RunKeepsInv(events);
    assert i != j ==> HeldBy(Run(events).recs[i]) !! HeldBy(Run(events).recs[j]);
  }
}
