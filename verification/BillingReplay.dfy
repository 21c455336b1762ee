/** Redelivered events and repeated subscription states change nothing. */
module BillingReplay {
  import opened Wrappers
  import opened BillingModel
  import opened BillingRuns

  function DeliveredIds(steps: seq<Timed>): set<Id> {
    set t | t in steps && t.step.Delivered? :: t.step.event.id
  }

  // `steps` without the deliveries of an event already seen, or delivered earlier in `steps`.
  function WithoutRedeliveries(steps: seq<Timed>, seen: set<Id>): seq<Timed> {
    if steps == [] then []
    else
      var front := steps[..|steps| - 1];
      var last := steps[|steps| - 1];
      WithoutRedeliveries(front, seen)
      + if last.step.Delivered? && last.step.event.id in seen + DeliveredIds(front) then [] else [last]
  }

  lemma {:induction false} RunMarksDeliveries(config: Config, s: State, steps: seq<Timed>)
    ensures Run(config, s, steps).processed == s.processed + DeliveredIds(steps)
  {
    if steps != [] {
      var front := steps[..|steps| - 1];
      RunMarksDeliveries(config, s, front);
      DeliveryMarks(config, Run(config, s, front), steps[|steps| - 1]);
      assert steps == front + [steps[|steps| - 1]];
    }
  }

  lemma RedeliveryIsNoOp(config: Config, s: State, t: Timed)
    requires t.step.Delivered? && t.step.event.id in s.processed
    ensures Advance(config, s, t) == s
  {
    assert s.processed + {t.step.event.id} == s.processed;
  }

  // Any run, redeliveries at any later time and any number of them included, ends in the same
  // rows, history and mail as the run with every later duplicate removed.
  lemma {:induction false} ReplaySafe(config: Config, s: State, steps: seq<Timed>)
    ensures Run(config, s, steps) == Run(config, s, WithoutRedeliveries(steps, s.processed))
  {
    if steps != [] {
      var front := steps[..|steps| - 1];
      var last := steps[|steps| - 1];
      var kept := WithoutRedeliveries(front, s.processed);
      ReplaySafe(config, s, front);
      RunMarksDeliveries(config, s, front);
      if last.step.Delivered? && last.step.event.id in s.processed + DeliveredIds(front) {
        RedeliveryIsNoOp(config, Run(config, s, front), last);
        assert kept + [] == kept;
      } else {
        assert (kept + [last])[..|kept|] == kept;
      }
    }
  }

  predicate Delivers(t: Timed, id: Id) {
    t.step.Delivered? && t.step.event.id == id
  }

  predicate FirstDelivery(steps: seq<Timed>, id: Id, i: nat) {
    i < |steps| && Delivers(steps[i], id) && forall k :: 0 <= k < i ==> !Delivers(steps[k], id)
  }

  // The state with an event's body handled as far as its delivery got: not at all, without its
  // mail, or whole.
  function HandledAsFar(config: Config, s: State, t: Timed): State
    requires t.step.Delivered?
  {
    var marked := s.(processed := s.processed + {t.step.event.id});
    match t.reach
    case Nothing => marked
    case Unmailed => Handle(config, marked, t.step.event.body, t.now).(mails := s.mails)
    case Everything => Handle(config, marked, t.step.event.body, t.now)
  }

  // When an event is applied, over any run that starts with its id unseen: at its first delivery,
  // exactly as far as that delivery gets, and at no other. So an event whose first delivery fails
  // before writing is never applied, however often it is delivered again, and one whose first
  // delivery fails before mailing is never mailed about.
  lemma EventAppliedIff(config: Config, s: State, steps: seq<Timed>, id: Id, i: nat)
    requires id !in s.processed && i < |steps| && Delivers(steps[i], id)
    ensures var before, after := Run(config, s, steps[..i]), Run(config, s, steps[..i + 1]);
            after == if FirstDelivery(steps, id, i) then HandledAsFar(config, before, steps[i]) else before
  {
    var front := steps[..i];
    assert steps[..i + 1][..i] == front;
    RunMarksDeliveries(config, s, front);
    if FirstDelivery(steps, id, i) {
      assert forall t :: t in front && t.step.Delivered? ==> t.step.event.id != id;
      assert id !in DeliveredIds(front);
    } else {
      var k :| 0 <= k < i && Delivers(steps[k], id);
      assert front[k] == steps[k];
      assert id in DeliveredIds(front);
      RedeliveryIsNoOp(config, Run(config, s, front), steps[i]);
    }
  }

  // The other side of marking first, at an input: the first delivery of a checkout fails before
  // writing, the second succeeds, and the workspace that paid stays on Launch.
  lemma FailedDeliveryIsLost(config: Config, s: State, event: Event, subscription: Id, workspace: Id)
    requires workspace in s.rows && s.rows[workspace].plan == Launch && event.id !in s.processed
    requires event.body == CheckoutCompleted(Some(workspace), Some(subscription))
    ensures var steps := [At(1, Delivered(event), Nothing), At(2, Delivered(event), Everything)];
            var after := Run(config, s, steps);
            && after == s.(processed := s.processed + {event.id})
            && workspace in Run(config, s, steps[1..]).rows && Run(config, s, steps[1..]).rows[workspace].plan == Pro
  {
    var steps := [At(1, Delivered(event), Nothing), At(2, Delivered(event), Everything)];
    assert steps[..0] == [] && steps[..2] == steps;
    EventAppliedIff(config, s, steps, event.id, 0);
    EventAppliedIff(config, s, steps, event.id, 1);
    assert steps[1..][..0] == [];
  }

  lemma SubscriptionRowIdempotent(config: Config, row: Row, sub: Subscription, now: Time, later: Time)
    ensures SubscriptionEffect(config, SubscriptionEffect(config, row, sub, now).row, sub, later)
         == Effect(SubscriptionEffect(config, row, sub, now).row, [], [])
  {
  }

  lemma CommitNothing(s: State, workspace: Id)
    requires workspace in s.rows
    ensures Commit(s, workspace, Effect(s.rows[workspace], [], [])) == s
  {
    assert s.rows[workspace := s.rows[workspace]] == s.rows;
    assert Entries(workspace, []) == [] && s.history + [] == s.history && s.mails + [] == s.mails;
    assert Addressed(workspace, s.rows[workspace], []) == [];
  }

  // Applying a subscription's state again, at any later time, changes no row and records and
  // mails nothing.
  lemma ApplyTwiceIsOnce(config: Config, s: State, sub: Subscription, now: Time, later: Time)
    ensures ApplySubscription(config, ApplySubscription(config, s, sub, now), sub, later)
         == ApplySubscription(config, s, sub, now)
  {
    if sub.organization.Some? && sub.organization.value in s.rows {
      SubscriptionRowIdempotent(config, s.rows[sub.organization.value], sub, now, later);
      CommitNothing(ApplySubscription(config, s, sub, now), sub.organization.value);
    }
  }
}
