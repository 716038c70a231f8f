/**
 The refresh protocol that UDisks2Backend and BlueZBackend share: a service owner, a generation that counts owner
 events, a revision that counts every possible change, and at most one GetManagedObjects call per generation.

 History: `calls` is the bag of calls still in flight, keyed by the moment each was sent. `clock` counts moments,
 `disturbedAt` is the moment of the last change or owner event, and `shown` is the last snapshot emitted.
 */
module RefreshProtocol {
  import opened Prelude

  datatype SnapshotCall = SnapshotCall(generation: nat, revision: nat)

  /** `asOf` is the moment the emitted data was asked for. */
  datatype Shown = Shown(available: bool, asOf: nat)

  datatype Refresh = Refresh(started: bool, owner: string, generation: nat, revision: nat, refreshing: bool,
                             calls: map<nat, SnapshotCall>, clock: nat, disturbedAt: nat, shown: Shown)

  datatype Verdict = Dropped | Superseded | Failed | Published

  function Idle(): Refresh {
    Refresh(false, "", 0, 0, false, map[], 1, 0, Shown(false, 0))
  }

  /** refresh(): ask for a snapshot unless one is on its way or nobody owns the service. */
  function Ask(r: Refresh): Refresh {
    if r.refreshing || r.owner == "" then r
    else r.(refreshing := true, calls := r.calls[r.clock := SnapshotCall(r.generation, r.revision)], clock := r.clock + 1)
  }

  lemma NobodyToAsk(r: Refresh)
    ensures r.owner == "" ==> Ask(r) == r
  {
  }

  /** setOwner(): a new generation; everything shown so far is withdrawn. */
  function SetOwner(r: Refresh, owner: string): Refresh {
    Ask(Disown(r, owner))
  }

  function Disown(r: Refresh, owner: string): Refresh {
    r.(generation := r.generation + 1, revision := r.revision + 1, refreshing := false, owner := owner,
       disturbedAt := r.clock, clock := r.clock + 1, shown := Shown(false, r.clock))
  }

  function Changed(r: Refresh): Refresh {
    var r' := r.(revision := r.revision + 1, disturbedAt := r.clock, clock := r.clock + 1);
    if r.started && r.owner != "" then Ask(r') else r'
  }

  function VerdictOn(r: Refresh, t: nat, ok: bool): Verdict
    requires t in r.calls
  {
    if r.calls[t].generation != r.generation then Dropped
    else if r.calls[t].revision != r.revision then Superseded
    else if !ok then Failed
    else Published
  }

  /** The reply to the call sent at moment t arrives. */
  function Answer(r: Refresh, t: nat, ok: bool): Refresh
    requires t in r.calls
  {
    var r' := r.(calls := r.calls - {t});
    match VerdictOn(r, t, ok)
    case Dropped => r'
    case Superseded => Ask(r'.(refreshing := false))
    case Failed => r'.(refreshing := false, shown := Shown(false, t))
    case Published => r'.(refreshing := false, shown := Shown(true, t))
  }

  function Start(r: Refresh): Refresh {
    r.(started := true)
  }

  function Stop(r: Refresh): Refresh {
    if r.started then SetOwner(r.(started := false), "") else r
  }

  /** Something else is put on the bus: only time passes. */
  function Tick(r: Refresh): Refresh {
    r.(clock := r.clock + 1)
  }

  // ---------------------------------------------------------------- what each step does

  /** One more call is in flight, made for the present generation and revision. */
  ghost predicate AsksOnceMore(r: Refresh, q: Refresh) {
    q.refreshing && exists t: nat :: t !in r.calls && q.calls == r.calls[t := SnapshotCall(q.generation, q.revision)]
  }

  lemma AskDecides(r: Refresh)
    requires forall t :: t in r.calls ==> t < r.clock
    ensures var q := Ask(r);
            && (r.refreshing || r.owner == "" ==> q == r)
            && (!r.refreshing && r.owner != "" ==> AsksOnceMore(r, q))
            && q == r.(refreshing := q.refreshing, calls := q.calls, clock := q.clock)
  {
    if !r.refreshing && r.owner != "" {
      assert r.clock !in r.calls;
    }
  }

  /** An owner event begins a generation, withdraws what was shown, and asks anew if there is an owner. */
  lemma OwnerDecides(r: Refresh, owner: string)
    requires forall t :: t in r.calls ==> t < r.clock
    ensures var q := SetOwner(r, owner);
            && q.owner == owner && q.started == r.started && q.generation == r.generation + 1 && q.revision == r.revision + 1
            && q.disturbedAt == r.clock && !q.shown.available
            && (if owner == "" then !q.refreshing && q.calls == r.calls else AsksOnceMore(r, q))
  {
    hide Ask, AsksOnceMore;
    AskDecides(Disown(r, owner));
    AsksFromCalls(Disown(r, owner), r, SetOwner(r, owner));
  }

  lemma AsksFromCalls(r: Refresh, r': Refresh, q: Refresh)
    requires r.calls == r'.calls
    ensures AsksOnceMore(r, q) <==> AsksOnceMore(r', q)
  {}

  /** A change makes every call in flight too old, and asks anew unless a call is in flight or nobody can be asked. */
  lemma ChangeDecides(r: Refresh)
    requires forall t :: t in r.calls ==> t < r.clock
    ensures var q := Changed(r);
            && q.owner == r.owner && q.started == r.started && q.generation == r.generation && q.revision == r.revision + 1
            && q.disturbedAt == r.clock && q.shown == r.shown
            && (if r.started && r.owner != "" && !r.refreshing then AsksOnceMore(r, q) else q.refreshing == r.refreshing && q.calls == r.calls)
  {
    hide Ask, AsksOnceMore;
    var r' := r.(revision := r.revision + 1, disturbedAt := r.clock, clock := r.clock + 1);
    AskDecides(r');
    AsksFromCalls(r', r, Changed(r));
  }

  /** A reply of an earlier generation is nothing; one that a change overtook asks anew; any other is shown or withdraws. */
  lemma ReplyDecides(r: Refresh, t: nat, ok: bool)
    requires t in r.calls && forall u :: u in r.calls ==> u < r.clock
    ensures var q, left := Answer(r, t, ok), r.(calls := r.calls - {t});
            if r.calls[t].generation != r.generation then q == left
            else if r.calls[t].revision != r.revision then
              && q == left.(refreshing := q.refreshing, calls := q.calls, clock := q.clock)
              && (if r.owner == "" then !q.refreshing && q.calls == left.calls else AsksOnceMore(left, q))
            else q == left.(refreshing := false, shown := Shown(ok, t))
  {
    hide Ask, AsksOnceMore;
    var idle := r.(calls := r.calls - {t}, refreshing := false);
    AskDecides(idle);
    AsksFromCalls(idle, r.(calls := r.calls - {t}), Ask(idle));
  }

  // ---------------------------------------------------------------- what every step keeps

  ghost predicate Current(r: Refresh, t: nat) {
    t in r.calls && r.calls[t].generation == r.generation
  }

  ghost predicate Invariant(r: Refresh) {
    && (r.owner != "" ==> r.started)
    && (r.refreshing ==> r.owner != "")
    && r.disturbedAt < r.clock && r.shown.asOf < r.clock
    && (forall t :: t in r.calls ==> t < r.clock && r.calls[t].generation <= r.generation && r.calls[t].revision <= r.revision)
    && (forall t :: Current(r, t) ==> r.refreshing && (r.calls[t].revision == r.revision <==> r.disturbedAt < t))
    && (forall t :: t in r.calls && !Current(r, t) ==> t < r.disturbedAt)
    && (r.refreshing ==> exists t :: Current(r, t))
    && (forall t, t' :: Current(r, t) && Current(r, t') ==> t == t')
    && (r.owner != "" && !r.refreshing ==> r.disturbedAt < r.shown.asOf)
  }

  lemma AskKeeps(r: Refresh)
    requires r.owner != "" ==> r.started
    requires r.disturbedAt < r.clock && r.shown.asOf < r.clock
    requires forall t :: t in r.calls ==> t < r.clock && r.calls[t].generation <= r.generation && r.calls[t].revision <= r.revision
    requires forall t :: Current(r, t) ==> r.refreshing && (r.calls[t].revision == r.revision <==> r.disturbedAt < t)
    requires forall t :: t in r.calls && !Current(r, t) ==> t < r.disturbedAt
    requires r.refreshing ==> r.owner != "" && exists t :: Current(r, t)
    requires forall t, t' :: Current(r, t) && Current(r, t') ==> t == t'
    ensures Invariant(Ask(r))
  {
    var r' := Ask(r);
    if r' != r {
      assert Current(r', r.clock);
      forall t | Current(r', t) ensures t == r.clock {
        assert t in r.calls ==> Current(r, t);
      }
    } else if r.refreshing {
      var t :| Current(r, t);
      assert Current(r', t);
    }
  }

  lemma SetOwnerKeeps(r: Refresh, owner: string)
    requires Invariant(r) && (owner != "" ==> r.started)
    ensures Invariant(SetOwner(r, owner))
  {
    var r' := Disown(r, owner);
    forall t ensures !Current(r', t) {}
    AskKeeps(r');
  }

  lemma StopKeeps(r: Refresh)
    requires Invariant(r)
    ensures Invariant(Stop(r)) && (r.started ==> Stop(r).owner == "" && !Stop(r).started)
  {
    if r.started {
      var r' := Disown(r.(started := false), "");
      forall t ensures !Current(r', t) {}
      AskKeeps(r');
    }
  }

  lemma ChangedKeeps(r: Refresh)
    requires Invariant(r)
    ensures Invariant(Changed(r))
    ensures r.owner != "" ==> Changed(r).refreshing
  {
    var r' := r.(revision := r.revision + 1, disturbedAt := r.clock, clock := r.clock + 1);
    forall t ensures Current(r', t) <==> Current(r, t) {}
    AskKeeps(r');
  }

  lemma AnswerKeeps(r: Refresh, t: nat, ok: bool)
    requires Invariant(r) && t in r.calls
    ensures Invariant(Answer(r, t, ok))
  {
    var r' := r.(calls := r.calls - {t});
    forall u ensures Current(r', u) <==> Current(r, u) && u != t {}
    if VerdictOn(r, t, ok).Dropped? {
      if r.refreshing {
        var u :| Current(r, u);
        assert Current(r', u);
      }
    } else {
      assert Current(r, t);
      var r'' := r'.(refreshing := false);
      forall u ensures !Current(r'', u) { assert Current(r'', u) ==> Current(r, u) && u != t; }
      if VerdictOn(r, t, ok).Superseded? {
        AskKeeps(r'');
      } else {
        forall u ensures !Current(Answer(r, t, ok), u) { assert Current(Answer(r, t, ok), u) ==> Current(r'', u); }
      }
    }
  }

  lemma TickKeeps(r: Refresh)
    requires Invariant(r)
    ensures Invariant(Tick(r))
  {
    forall t ensures Current(Tick(r), t) <==> Current(r, t) {}
  }

  // ---------------------------------------------------------------- whole runs

  datatype Event = Starts | OwnerAppears(owner: string) | SomethingChanges | Replies(at: nat, ok: bool) | OtherCall | Stops

  /** Events that cannot happen in a state leave it alone: owner signals are ignored before start and after stop. */
  function Step(r: Refresh, e: Event): Refresh {
    match e
    case Starts => Start(r)
    case OwnerAppears(owner) => if r.started then SetOwner(r, owner) else r
    case SomethingChanges => Changed(r)
    case Replies(t, ok) => if t in r.calls then Answer(r, t, ok) else r
    case OtherCall => Tick(r)
    case Stops => Stop(r)
  }

  function Run(events: seq<Event>): Refresh {
    if events == [] then Idle()
    else Step(Run(events[..|events| - 1]), events[|events| - 1])
  }

  lemma StepKeeps(r: Refresh, e: Event)
    requires Invariant(r)
    ensures Invariant(Step(r, e))
  {
    match e {
      case Starts => forall t ensures Current(Start(r), t) <==> Current(r, t) {}
      case OwnerAppears(owner) => if r.started { SetOwnerKeeps(r, owner); }
      case SomethingChanges => ChangedKeeps(r);
      case Replies(t, ok) => if t in r.calls { AnswerKeeps(r, t, ok); }
      case OtherCall => TickKeeps(r);
      case Stops => StopKeeps(r);
    }
  }

  lemma {:induction false} EveryRunKeepsInvariant(events: seq<Event>)
    ensures Invariant(Run(events))
  {
    if events == [] {
    } else {
      EveryRunKeepsInvariant(events[..|events| - 1]);
      StepKeeps(Run(events[..|events| - 1]), events[|events| - 1]);
    }
  }

  ghost function CurrentCalls(r: Refresh): set<nat> {
    set t | t in r.calls && Current(r, t)
  }

  /**
   The promises of the protocol. `refreshing_` holds exactly when one snapshot call of the current generation is in
   flight, and never are there two. A reply is used exactly when no change and no owner event happened after its call
   was sent. No change is lost: with an owner, a call is in flight or what is shown was asked for after the last change.
   */
  ghost predicate Faithful(r: Refresh) {
    && |CurrentCalls(r)| == (if r.refreshing then 1 else 0)
    && (forall t, ok :: t in r.calls ==> (VerdictOn(r, t, ok) in {Failed, Published} <==> r.disturbedAt < t))
    && (r.owner != "" && !r.refreshing ==> r.disturbedAt < r.shown.asOf)
  }

  lemma InvariantIsFaithful(r: Refresh)
    requires Invariant(r)
    ensures Faithful(r)
  {
    if r.refreshing {
      var t: nat :| Current(r, t);
      forall u | u in CurrentCalls(r) ensures u == t {}
      assert CurrentCalls(r) == {t};
    } else {
      assert CurrentCalls(r) == {};
    }
    forall t, ok | t in r.calls ensures VerdictOn(r, t, ok) in {Failed, Published} <==> r.disturbedAt < t {
      assert r.calls[t].generation == r.generation <==> Current(r, t);
    }
  }

  lemma EveryRunIsFaithful(events: seq<Event>)
    ensures Faithful(Run(events))
  {
    EveryRunKeepsInvariant(events);
    InvariantIsFaithful(Run(events));
  }
}
