/** What the client's subscriptions mean: over every run the topics that are subscribed or refused are those
    whose subscribe was issued, with that answer, on the connection there is. */
module SubscriptionHistory {
  import opened Common
  import opened SubscriptionModel

  predicate IsConnected(es: seq<Event>, n: nat)
    requires n <= |es|
  {
    n > 0 && !es[n - 1].Lose? && (es[n - 1].Connect? || IsConnected(es, n - 1))
  }

  predicate IsRegistered(es: seq<Event>, n: nat, t: Topic)
    requires n <= |es|
  {
    n > 0 && ((es[n - 1].Insert? && es[n - 1].topic == t) || IsRegistered(es, n - 1, t))
  }

  // The topic that a thread has registered as a new one and not yet subscribed.
  function Pending(es: seq<Event>, n: nat, th: Thread): Option<Topic>
    requires n <= |es|
  {
    if n == 0 then None
    else
      var e := es[n - 1];
      if e.Insert? && e.thread == th && !IsRegistered(es, n - 1, e.topic) then Some(e.topic)
      else if e.Subscribe? && e.thread == th then None
      else Pending(es, n - 1, th)
  }

  // Event n issues a subscribe for the topic, to which the library answers by throwing or not.
  predicate Answers(es: seq<Event>, n: nat, t: Topic, throws: bool)
    requires n < |es|
  {
    && IsConnected(es, n)
    && ((es[n].SyncOne? && es[n].topic == t) || (es[n].Subscribe? && Pending(es, n, es[n].thread) == Some(t)))
    && es[n].throws == throws
  }

  // On the connection there is, some subscribe for the topic had that answer.
  predicate Answered(es: seq<Event>, n: nat, t: Topic, throws: bool)
    requires n <= |es|
  {
    && n > 0 && !es[n - 1].Connect? && !es[n - 1].Lose?
    && (Answers(es, n - 1, t, throws) || Answered(es, n - 1, t, throws))
  }

  ghost predicate Agrees(s: State, es: seq<Event>, n: nat)
    requires n <= |es|
  {
    && s.connected == IsConnected(es, n)
    && (forall t :: t in s.topics <==> IsRegistered(es, n, t))
    && (forall th :: th in s.pending <==> Pending(es, n, th).Some?)
    && (forall th | th in s.pending :: Some(s.pending[th]) == Pending(es, n, th))
    && (forall t :: t in s.accepted <==> Answered(es, n, t, false))
    && (forall t :: t in s.refused <==> Answered(es, n, t, true))
  }

  lemma TopicsNext(s: State, es: seq<Event>, n: nat)
    requires n < |es| && Agrees(s, es, n) && Enabled(s, es[n])
    ensures var u := Step(s, es[n]);
      && u.connected == IsConnected(es, n + 1)
      && (forall t :: t in u.topics <==> IsRegistered(es, n + 1, t))
      && (forall th :: th in u.pending <==> Pending(es, n + 1, th).Some?)
      && (forall th | th in u.pending :: Some(u.pending[th]) == Pending(es, n + 1, th))
  {
    hide Answered;
  }

  lemma AnswersNext(s: State, es: seq<Event>, n: nat, t: Topic)
    requires n < |es| && Agrees(s, es, n) && Enabled(s, es[n])
    ensures t in Step(s, es[n]).accepted <==> Answered(es, n + 1, t, false)
    ensures t in Step(s, es[n]).refused <==> Answered(es, n + 1, t, true)
  {
    hide IsConnected, IsRegistered, Pending;
  }

  lemma AgreesNext(s: State, es: seq<Event>, n: nat)
    requires n < |es| && Agrees(s, es, n) && Enabled(s, es[n])
    ensures Agrees(Step(s, es[n]), es, n + 1)
  {
    TopicsNext(s, es, n);
    forall t
      ensures t in Step(s, es[n]).accepted <==> Answered(es, n + 1, t, false)
      ensures t in Step(s, es[n]).refused <==> Answered(es, n + 1, t, true)
    {
      AnswersNext(s, es, n, t);
    }
    hide Step, Enabled, IsConnected, IsRegistered, Pending, Answered;
  }

  lemma {:induction false} AgreesInRun(ss: seq<State>, es: seq<Event>, n: nat)
    requires IsRun(ss, es) && n <= |es|
    ensures Agrees(ss[n], es, n)
  {
    if n > 0 {
      assert IsStep(ss[n - 1], es[n - 1], ss[n]);
      AgreesInRun(ss, es, n - 1);
      hide IsRun, Step, Enabled, Agrees;
      AgreesNext(ss[n - 1], es, n - 1);
    }
  }

  /** Over every run: a topic is subscribed, or was refused, exactly if a subscribe for it was issued on the
      current connection and answered so. So once all is quiet on a connection, every topic registered is
      subscribed, or the library refused a subscribe for it. */
  lemma SubscribedIff(ss: seq<State>, es: seq<Event>, n: nat, t: Topic)
    requires IsRun(ss, es) && n <= |es|
    ensures t in ss[n].accepted <==> Answered(es, n, t, false)
    ensures t in ss[n].refused <==> Answered(es, n, t, true)
    ensures IsConnected(es, n) && ss[n].Quiet() && IsRegistered(es, n, t) ==>
      Answered(es, n, t, false) || Answered(es, n, t, true)
  {
    AgreesInRun(ss, es, n);
    hide IsRun, Answered, Pending, IsConnected, IsRegistered;
    if ss[n].connected && ss[n].Quiet() && t in ss[n].topics {
      NoLostSubscription(ss, es, n, t);
    }
  }
}
