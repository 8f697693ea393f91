/** The background materializer's wake-up: a pending set under a mutex, a channel of capacity one, one
    worker, and any number of ingest goroutines noting sessions. */
module Wake {
  import opened Events

  // ---------------------------------------------------------------- the protocol

  /** Where the worker stands: blocked on the channel, between receive and swap, or draining. */
  datatype Worker = Waiting | Received | Draining(left: set<string>)

  /** `sending` counts the goroutines between their unlock and their send; `noted` and `drained` are the
      history: every session ever noted, and every session the worker has finished with since. */
  datatype State = State(pending: set<string>, token: bool, worker: Worker, sending: nat, noted: set<string>, drained: set<string>)

  datatype Step = NoteStep(session: string) | SendStep | ReceiveStep | SwapStep | DrainStep(session: string)

  const Start := State({}, false, Waiting, 0, {}, {})

  predicate Enabled(s: State, step: Step) {
    match step
    case NoteStep(_) => true
    case SendStep => s.sending > 0
    case ReceiveStep => s.worker.Waiting? && s.token
    case SwapStep => s.worker.Received?
    case DrainStep(x) => s.worker.Draining? && x in s.worker.left
  }

  function Next(s: State, step: Step): State
    requires Enabled(s, step)
  {
    match step
    case NoteStep(x) => s.(pending := s.pending + {x}, sending := s.sending + 1, noted := s.noted + {x}, drained := s.drained - {x})
    case SendStep => s.(token := true, sending := s.sending - 1)
    case ReceiveStep => s.(token := false, worker := Received)
    case SwapStep => s.(pending := {}, worker := if s.pending == {} then Waiting else Draining(s.pending))
    case DrainStep(x) =>
      var left := s.worker.left - {x};
      s.(worker := if left == {} then Waiting else Draining(left),
         drained := if x in s.pending then s.drained else s.drained + {x})
  }

  function Taken(s: State): set<string> {
    if s.worker.Draining? then s.worker.left else {}
  }

  /** No lost wake-up, and no lost session: whatever was noted and not drained since is still pending or
      being drained. */
  predicate Inv(s: State) {
    && (s.pending != {} ==> s.token || s.worker.Received? || s.sending > 0)
    && s.noted == s.drained + s.pending + Taken(s)
    && s.drained !! s.pending
    && (s.worker.Draining? ==> s.worker.left != {})
  }

  predicate Follows(s: State, steps: seq<Step>, states: seq<State>) {
    && |states| == |steps| + 1 && states[0] == s
    && forall i :: 0 <= i < |steps| ==> Enabled(states[i], steps[i]) && states[i + 1] == Next(states[i], steps[i])
  }

  lemma StepKeepsInv(s: State, step: Step)
    requires Inv(s) && Enabled(s, step)
    ensures Inv(Next(s, step))
  {
    assert s.worker.Draining? ==> forall x :: x in s.worker.left ==> s.worker.left == (s.worker.left - {x}) + {x};
  }

  /** In every reachable state the wake-up is not lost: with no noter on its way to the channel, a worker
      blocked on it while a session is pending has a token to receive. */
  lemma {:induction false} NoLostWakeUp(steps: seq<Step>, states: seq<State>, i: nat)
    requires Follows(Start, steps, states) && i < |states|
    ensures Inv(states[i])
    ensures states[i].pending != {} && states[i].worker.Waiting? && states[i].sending == 0 ==> Enabled(states[i], ReceiveStep)
  {
    if i > 0 {
      NoLostWakeUp(steps, states, i - 1);
      StepKeepsInv(states[i - 1], steps[i - 1]);
    }
  }

  /** How far the worker is from having drained everything, when nobody notes anything new. */
  function Distance(s: State): nat {
    s.sending * 4 +
    match s.worker
    case Waiting => if s.token then 3 + 2 * |s.pending| else 2 * |s.pending|
    case Received => 2 + 2 * |s.pending| + if s.token then 3 else 0
    case Draining(left) => |left| + 2 * |s.pending| + if s.token then 3 else 0
  }

  /** Left alone the worker cannot run forever: every step but a note brings it closer to rest. */
  lemma EveryOtherStepGetsCloser(s: State, step: Step)
    requires Inv(s) && Enabled(s, step) && !step.NoteStep?
    ensures Distance(Next(s, step)) < Distance(s)
  {
    match step {
      case DrainStep(x) =>
        assert |s.worker.left - {x}| == |s.worker.left| - 1;
      case _ =>
    }
  }

  /** And it rests only when every session noted has been drained since. */
  lemma RestMeansAllDrained(s: State)
    requires Inv(s) && forall step :: Enabled(s, step) ==> step.NoteStep?
    ensures s.drained == s.noted
  {
    assert !Enabled(s, SendStep) && !Enabled(s, ReceiveStep) && !Enabled(s, SwapStep);
    if s.worker.Draining? {
      var x :| x in s.worker.left;
      assert Enabled(s, DrainStep(x));
    }
  }

  // ---------------------------------------------------------------- the object

  /** turnEndingEventTypes. */
  predicate EndsTurn(typ: EventType) {
    typ.TurnComplete? || typ.Result? || typ.Error?
  }

  /** turnMaterializer. Each method up to Drain is one step of its goroutine as the mutex and the channel
      order them, and moves the protocol state by exactly that step; other goroutines' methods may run in
      between. */
  class TurnMaterializer {
    var pending: set<string>
    var token: bool
    ghost var state: State

    /** The object is at a state that the protocol can reach. */
    ghost predicate Valid()
      reads this
    {
      state.pending == pending && state.token == token && Inv(state)
    }

    constructor ()
      ensures Valid() && state == Start
    {
      pending, token, state := {}, false, Start;
    }

    /** noteEvent between lock and unlock. */
    method Note(session: string)
      requires Valid()
      modifies this
      ensures Valid() && state == Next(old(state), NoteStep(session))
    {
      StepKeepsInv(state, NoteStep(session));
      pending := pending + {session};
      state := Next(state, NoteStep(session));
    }

    /** noteEvent's send, which does nothing when the channel is full. */
    method Send()
      requires Valid() && Enabled(state, SendStep)
      modifies this
      ensures Valid() && state == Next(old(state), SendStep)
    {
      StepKeepsInv(state, SendStep);
      if !token {
        token := true;
      }
      state := Next(state, SendStep);
    }

    /** The worker taking the token off the channel. */
    method Receive()
      requires Valid() && Enabled(state, ReceiveStep)
      modifies this
      ensures Valid() && state == Next(old(state), ReceiveStep)
    {
      StepKeepsInv(state, ReceiveStep);
      token := false;
      state := Next(state, ReceiveStep);
    }

    /** run between lock and unlock: take the pending set and leave an empty one. */
    method Swap() returns (sessions: set<string>)
      requires Valid() && Enabled(state, SwapStep)
      modifies this
      ensures Valid() && state == Next(old(state), SwapStep) && sessions == Taken(state)
    {
      StepKeepsInv(state, SwapStep);
      sessions := pending;
      pending := {};
      state := Next(state, SwapStep);
    }

    /** The worker finishing with one session, whether it could build its turns or not. */
    method Drain(session: string)
      requires Valid() && Enabled(state, DrainStep(session))
      modifies this
      ensures Valid() && state == Next(old(state), DrainStep(session))
      ensures pending == old(pending) && token == old(token)
    {
      StepKeepsInv(state, DrainStep(session));
      state := Next(state, DrainStep(session));
    }

    /** noteEvent with nobody in between: a session whose turn ended is pending and the worker is woken. */
    method NoteEvent(session: string, typ: EventType)
      requires Valid()
      modifies this
      ensures Valid()
      ensures typ != TurnComplete && typ != Result && typ != Error ==> state == old(state)
      ensures typ == TurnComplete || typ == Result || typ == Error ==>
                session in pending && token && state.sending == old(state.sending) && state.worker == old(state.worker)
    {
      if !EndsTurn(typ) {
        return;
      }
      Note(session);
      Send();
    }

    /** One turn of run's loop with nobody in between: every pending session is drained, and the worker
        waits again with nothing pending. */
    method RunOnce()
      requires Valid() && Enabled(state, ReceiveStep)
      modifies this
      ensures Valid() && state.worker.Waiting? && !token && pending == {}
      ensures old(state.noted) == state.noted == state.drained
    {
      Receive();
      var left := Swap();
      while left != {}
        invariant Valid() && !token && pending == {} && left == Taken(state)
        invariant left == {} ==> state.worker.Waiting?
        invariant left != {} ==> state.worker == Draining(left)
        invariant state.noted == old(state.noted)
        decreases left
      {
        var session :| session in left;
        Drain(session);
        left := left - {session};
      }
    }
  }
}
