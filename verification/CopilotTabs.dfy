/**
 The copilot store: one request slot per browser tab, and TAKEOVER broadcasts by which a send in one tab
 cancels the request in flight in every other tab. Requests are numbered in the order they are sent,
 over all tabs. Responses may come back late, after their request was superseded.
 */
module CopilotTabs {
  import opened Common

  type Req = nat
  type TabId = nat

  datatype Message = Greeting | User(req: Req) | Reply(req: Req)

  /** How the HTTP call of a send ends: an answer, an error to show, or the cancellation error that the
      abort of its own signal raises. */
  datatype Result = Answer | Failure | Cancelled

  /** `controller` and `activeReq` are the module variables, `aborted` the requests whose signal was
      aborted, `pending` the sends still awaiting their HTTP call. */
  datatype Tab = Tab(controller: Option<Req>, activeReq: Option<Req>, isLoading: bool,
                     messages: seq<Message>, pending: set<Req>, aborted: set<Req>)

  const NEW_TAB := Tab(None, None, false, [Greeting], {}, {})

  // ---------------------------------------------------------------- one tab

  function AbortCurrent(t: Tab): set<Req> {
    if t.controller.Some? then t.aborted + {t.controller.value} else t.aborted
  }

  /** sendMessage up to its HTTP call, for a query that is not blank. */
  function SendMessage(t: Tab, r: Req): Tab {
    Tab(Some(r), Some(r), true, t.messages + [User(r)], t.pending + {r}, AbortCurrent(t))
  }

  /** The TAKEOVER handler; cancelRequest does the same. */
  function DropRequest(t: Tab): Tab {
    t.(controller := None, activeReq := None, isLoading := false, aborted := AbortCurrent(t))
  }

  function ClearMessages(t: Tab): Tab { t.(messages := [Greeting]) }

  /** sendMessage from the end of its HTTP call on. */
  function Settle(t: Tab, r: Req, result: Result): Tab {
    var shown :=
      if result.Cancelled? || (result.Failure? && r in t.aborted) || t.activeReq != Some(r) then t
      else t.(messages := t.messages + [Reply(r)], isLoading := false);
    var released := if t.activeReq == Some(r) then shown.(controller := None, activeReq := None) else shown;
    released.(pending := released.pending - {r})
  }

  class CopilotStore {
    var controller: Option<Req>
    var activeReq: Option<Req>
    var isLoading: bool
    var messages: seq<Message>
    var pending: set<Req>
    var aborted: set<Req>

    function View(): Tab
      reads this
    {
      Tab(controller, activeReq, isLoading, messages, pending, aborted)
    }

    constructor ()
      ensures View() == NEW_TAB
    {
      controller, activeReq, isLoading, messages, pending, aborted := None, None, false, [Greeting], {}, {};
    }

    method Send(r: Req)
      modifies this
      ensures View() == SendMessage(old(View()), r)
    {
      if controller.Some? { aborted := aborted + {controller.value}; }
      controller := Some(r);
      activeReq := Some(r);
      messages := messages + [User(r)];
      isLoading := true;
      pending := pending + {r};
    }

    method OnTakeover()
      modifies this
      ensures View() == DropRequest(old(View()))
    {
      if controller.Some? {
        aborted := aborted + {controller.value};
        controller := None;
      }
      activeReq := None;
      isLoading := false;
    }

    method CancelRequest()
      modifies this
      ensures View() == DropRequest(old(View()))
    {
      OnTakeover();
    }

    method Clear()
      modifies this
      ensures View() == ClearMessages(old(View()))
    {
      messages := [Greeting];
    }

    method Append(r: Req)
      modifies this`messages, this`isLoading
      ensures messages == old(messages) + [Reply(r)] && !isLoading
    {
      messages := messages + [Reply(r)];
      isLoading := false;
    }

    method OnSettled(r: Req, result: Result)
      requires r in pending
      modifies this
      ensures View() == Settle(old(View()), r, result)
    {
      pending := pending - {r};
      match result {
        case Answer => if activeReq == Some(r) { Append(r); }
        case Failure => if r !in aborted && activeReq == Some(r) { Append(r); }
        case Cancelled =>
      }
      if activeReq == Some(r) {
        controller := None;
        activeReq := None;
      }
    }
  }

  // ---------------------------------------------------------------- all tabs

  /** A TAKEOVER posted for request `req`, not yet delivered to tab `to`. */
  datatype Takeover = Takeover(req: Req, to: TabId)

  datatype World = World(tabs: map<TabId, Tab>, mail: set<Takeover>, nextReq: Req)

  const EMPTY := World(map[], {}, 0)

  datatype Step =
    | Open(tab: TabId)
    | Send(tab: TabId, blank: bool)
    | Deliver(req: Req, tab: TabId)
    | Cancel(tab: TabId)
    | Clear(tab: TabId)
    | Respond(tab: TabId, req: Req, result: Result)

  function Put(w: World, i: TabId, t: Tab): World { w.(tabs := w.tabs[i := t]) }

  function Posted(w: World, from: TabId): set<Takeover> {
    set i | i in w.tabs && i != from :: Takeover(w.nextReq, i)
  }

  /** Only an aborted call can end in a cancellation error. */
  predicate CanEnd(t: Tab, r: Req, result: Result) { r in t.pending && (result.Cancelled? ==> r in t.aborted) }

  function Next(w: World, s: Step): World {
    if s.tab !in w.tabs then (if s.Open? then Put(w, s.tab, NEW_TAB) else w)
    else
      var t := w.tabs[s.tab];
      match s
      case Open(_) => w
      case Send(i, blank) =>
        if blank then w
        else World(w.tabs[i := SendMessage(t, w.nextReq)], w.mail + Posted(w, i), w.nextReq + 1)
      case Deliver(r, i) =>
        if Takeover(r, i) in w.mail then Put(w, i, DropRequest(t)).(mail := w.mail - {Takeover(r, i)}) else w
      case Cancel(i) => Put(w, i, DropRequest(t))
      case Clear(i) => Put(w, i, ClearMessages(t))
      case Respond(i, r, result) => if CanEnd(t, r, result) then Put(w, i, Settle(t, r, result)) else w
  }

  function Run(w: World, steps: seq<Step>): World
    decreases steps
  {
    if steps == [] then w else Run(Next(w, steps[0]), steps[1..])
  }

  predicate InFlight(w: World, i: TabId, r: Req) { i in w.tabs && w.tabs[i].controller == Some(r) }

  // ---------------------------------------------------------------- invariants

  /** One tab: the slot variables agree, the request in the slot is pending and not aborted, and every other
      pending one is aborted. */
  ghost predicate TabOk(t: Tab, nextReq: Req) {
    && t.controller == t.activeReq
    && (t.isLoading <==> t.activeReq.Some?)
    && (t.activeReq.Some? ==> t.activeReq.value in t.pending && t.activeReq.value !in t.aborted)
    && (forall r | r in t.pending :: t.activeReq == Some(r) || r in t.aborted)
    && (forall r | r in t.pending :: r < nextReq)
    && (forall r | r in t.aborted :: r < nextReq)
  }

  /** The transcript: each reply directly follows its own question, unless the chat was cleared in between. */
  ghost predicate Transcript(ms: seq<Message>) {
    && ms != [] && ms[0] == Greeting
    && (forall k | 1 <= k < |ms| :: ms[k] != Greeting)
    && (forall k | 1 <= k < |ms| && ms[k].Reply? :: ms[k - 1] == User(ms[k].req) || ms[k - 1] == Greeting)
  }

  /** A request in the slot has just been asked, or its question was cleared away. */
  ghost predicate Awaiting(t: Tab) {
    t.activeReq.Some? ==> t.messages != []
                           && (t.messages[|t.messages| - 1] == User(t.activeReq.value) || t.messages == [Greeting])
  }

  ghost predicate TabInv(t: Tab, nextReq: Req) { TabOk(t, nextReq) && Transcript(t.messages) && Awaiting(t) }

  ghost predicate Pendings(w: World) {
    forall i, j, r | i in w.tabs && j in w.tabs && r in w.tabs[i].pending && r in w.tabs[j].pending :: i == j
  }

  /** A request in flight has every later request's TAKEOVER still ahead of it. */
  ghost predicate Overtaken(w: World) {
    forall i, r, later | i in w.tabs && w.tabs[i].activeReq == Some(r) && r < later < w.nextReq ::
      Takeover(later, i) in w.mail
  }

  ghost predicate Addressed(w: World) { forall m | m in w.mail :: m.to in w.tabs }

  ghost predicate Inv(w: World) {
    && (forall i | i in w.tabs :: TabInv(w.tabs[i], w.nextReq))
    && Pendings(w) && Overtaken(w) && Addressed(w)
  }

  lemma SendOk(t: Tab, r: Req)
    requires TabInv(t, r)
    ensures TabInv(SendMessage(t, r), r + 1)
  {
  }

  lemma DropOk(t: Tab, nextReq: Req)
    requires TabInv(t, nextReq)
    ensures TabInv(DropRequest(t), nextReq) && TabInv(ClearMessages(t), nextReq)
  {
  }

  lemma SettleOk(t: Tab, nextReq: Req, r: Req, result: Result)
    requires TabInv(t, nextReq) && CanEnd(t, r, result)
    ensures TabInv(Settle(t, r, result), nextReq)
  {
  }

  lemma LaterOk(t: Tab, nextReq: Req)
    requires TabInv(t, nextReq)
    ensures TabInv(t, nextReq + 1)
  {
  }

  lemma TabStepOk(w: World, s: Step, i: TabId)
    requires Inv(w) && i in Next(w, s).tabs
    ensures TabInv(Next(w, s).tabs[i], Next(w, s).nextReq)
  {
    if i !in w.tabs {
      assert Next(w, s).tabs[i] == NEW_TAB;
    } else {
      var t := w.tabs[i];
      assert TabInv(t, w.nextReq);
      hide TabInv, SendMessage, DropRequest, ClearMessages, Settle, Inv, Posted;
      LaterOk(t, w.nextReq);
      SendOk(t, w.nextReq);
      DropOk(t, w.nextReq);
      if s.Respond? && CanEnd(t, s.req, s.result) { SettleOk(t, w.nextReq, s.req, s.result); }
    }
  }

  lemma NextKeepsPendings(w: World, s: Step)
    requires Inv(w)
    ensures Pendings(Next(w, s))
  {
    hide Overtaken, Transcript, Awaiting, Posted;
  }

  lemma NextKeepsOvertaken(w: World, s: Step)
    requires Inv(w)
    ensures Overtaken(Next(w, s))
  {
    hide Pendings, Transcript, Awaiting;
    var d := Next(w, s);
    forall i, r, later | i in d.tabs && d.tabs[i].activeReq == Some(r) && r < later < d.nextReq
      ensures Takeover(later, i) in d.mail
    {
      assert i in w.tabs && w.tabs[i].activeReq == Some(r);
    }
  }

  lemma NextKeepsAddressed(w: World, s: Step)
    requires Addressed(w)
    ensures Addressed(Next(w, s))
  {
  }

  lemma NextKeepsInv(w: World, s: Step)
    requires Inv(w)
    ensures Inv(Next(w, s))
  {
    NextKeepsAddressed(w, s);
    hide Next, TabInv, Pendings, Overtaken, Addressed;
    NextKeepsPendings(w, s);
    NextKeepsOvertaken(w, s);
    var d := Next(w, s);
    forall i | i in d.tabs ensures TabInv(d.tabs[i], d.nextReq) { TabStepOk(w, s, i); }
  }

  lemma {:induction false} RunKeepsInv(w: World, steps: seq<Step>)
    requires Inv(w)
    ensures Inv(Run(w, steps))
    decreases steps
  {
    if steps != [] {
      NextKeepsInv(w, steps[0]);
      RunKeepsInv(Next(w, steps[0]), steps[1..]);
    }
  }

  // ---------------------------------------------------------------- results across tabs

  /** Two tabs have a request in flight at once only while the later request's TAKEOVER to the earlier
      one's tab is undelivered; when nothing is undelivered, the only request in flight is the latest one sent. */
  lemma {:induction false} ParallelOnlyWhileUndelivered(steps: seq<Step>)
    ensures var w := Run(EMPTY, steps);
            && (forall i, j, r, q | InFlight(w, i, r) && InFlight(w, j, q) && i != j ::
                  r != q && (r < q ==> Takeover(q, i) in w.mail))
            && (w.mail == {} ==> forall i, r | InFlight(w, i, r) :: r == w.nextReq - 1)
            && (w.mail == {} ==> forall i, j, r, q | InFlight(w, i, r) && InFlight(w, j, q) :: i == j)
  {
    RunKeepsInv(EMPTY, steps);
    var w := Run(EMPTY, steps);
    forall i: TabId, r: Req | InFlight(w, i, r) && w.mail == {} ensures r == w.nextReq - 1 {
      assert TabInv(w.tabs[i], w.nextReq);
      var last: Req := w.nextReq - 1;
      assert r < last ==> Takeover(last, i) in w.mail;
    }
    forall i: TabId, j: TabId, r: Req, q: Req | InFlight(w, i, r) && InFlight(w, j, q) && i != j ensures r != q {
      assert TabInv(w.tabs[i], w.nextReq) && TabInv(w.tabs[j], w.nextReq);
    }
  }

  predicate Deliveries(steps: seq<Step>) { forall s | s in steps :: s.Deliver? }

  /** Delivery is always possible: from every reachable world TAKEOVERs alone empty the mail. */
  lemma {:induction false} MailCanBeDelivered(w: World) returns (steps: seq<Step>)
    requires Inv(w)
    ensures Deliveries(steps) && Run(w, steps).mail == {}
    decreases w.mail
  {
    if m :| m in w.mail {
      var s := Deliver(m.req, m.to);
      assert m == Takeover(m.req, m.to) && m.to in w.tabs;
      assert Next(w, s).mail == w.mail - {m};
      NextKeepsInv(w, s);
      var rest := MailCanBeDelivered(Next(w, s));
      steps := [s] + rest;
      assert steps[1..] == rest;
    } else {
      steps := [];
    }
  }

  lemma {:induction false} DeliveriesOnlyDrop(w: World, steps: seq<Step>, i: TabId)
    requires Deliveries(steps) && i in w.tabs && TabOk(w.tabs[i], w.nextReq)
    ensures var d := Run(w, steps);
            && i in d.tabs && d.mail <= w.mail
            && (d.tabs[i].activeReq == w.tabs[i].activeReq || d.tabs[i].activeReq.None?)
            && ((forall m | m in w.mail && m.to == i :: m in d.mail) ==> d.tabs[i].activeReq == w.tabs[i].activeReq)
            && ((exists m :: m in w.mail && m.to == i && m !in d.mail) ==> d.tabs[i].activeReq.None?)
    decreases steps
  {
    if steps != [] {
      var s := steps[0];
      var w1 := Next(w, s);
      assert s in steps;
      forall x | x in steps[1..] ensures x.Deliver? { assert x in steps; }
      DeliveriesOnlyDrop(w1, steps[1..], i);
    }
  }

  lemma {:induction false} DeliveriesKeepCount(w: World, steps: seq<Step>)
    requires Deliveries(steps)
    ensures Run(w, steps).nextReq == w.nextReq && Run(w, steps).tabs.Keys == w.tabs.Keys
    decreases steps
  {
    if steps != [] {
      assert steps[0] in steps;
      forall x | x in steps[1..] ensures x.Deliver? { assert x in steps; }
      DeliveriesKeepCount(Next(w, steps[0]), steps[1..]);
    }
  }

  lemma SenderKeepsSlotIff(w: World, i: TabId, steps: seq<Step>)
    requires Inv(w) && i in w.tabs && Deliveries(steps)
    requires Run(Next(w, Send(i, false)), steps).mail == {}
    ensures InFlight(Run(Next(w, Send(i, false)), steps), i, w.nextReq) <==> forall m | m in w.mail :: m.to != i
  {
    var w1 := Next(w, Send(i, false));
    var d := Run(w1, steps);
    NextKeepsInv(w, Send(i, false));
    RunKeepsInv(w1, steps);
    DeliveriesOnlyDrop(w1, steps, i);
    assert TabInv(d.tabs[i], d.nextReq) && w1.tabs[i].activeReq == Some(w.nextReq);
    if m :| m in w.mail && m.to == i { assert m in w1.mail && m !in d.mail; }
  }

  lemma OthersLoseSlot(w: World, i: TabId, steps: seq<Step>, j: TabId, r: Req)
    requires Inv(w) && i in w.tabs && Deliveries(steps)
    requires Run(Next(w, Send(i, false)), steps).mail == {}
    requires InFlight(Run(Next(w, Send(i, false)), steps), j, r)
    ensures j == i && r == w.nextReq
  {
    var w1 := Next(w, Send(i, false));
    var d := Run(w1, steps);
    NextKeepsInv(w, Send(i, false));
    RunKeepsInv(w1, steps);
    DeliveriesKeepCount(w1, steps);
    assert TabInv(d.tabs[j], d.nextReq);
    assert r < w.nextReq ==> Takeover(w.nextReq, j) in d.mail;
    if j != i {
      assert TabInv(w1.tabs[j], w1.nextReq) && w1.tabs[j] == w.tabs[j] && TabInv(w.tabs[j], w.nextReq);
      DeliveriesOnlyDrop(w1, steps, j);
    }
  }

  /** Exactly when the latest request survives the broadcasts: right after tab `i` sent it, and once all
      mail is delivered with nothing else happening, it is still in flight if and only if no older
      TAKEOVER was on its way to `i`. Otherwise no tab has a request in flight at all. */
  lemma LatestSurvivesIff(w: World, i: TabId, steps: seq<Step>)
    requires Inv(w) && i in w.tabs && Deliveries(steps)
    requires Run(Next(w, Send(i, false)), steps).mail == {}
    ensures var d := Run(Next(w, Send(i, false)), steps);
            && (InFlight(d, i, w.nextReq) <==> forall m | m in w.mail :: m.to != i)
            && (forall j, r | InFlight(d, j, r) :: j == i && r == w.nextReq)
  {
    SenderKeepsSlotIff(w, i, steps);
    var d := Run(Next(w, Send(i, false)), steps);
    forall j: TabId, r: Req | InFlight(d, j, r) ensures j == i && r == w.nextReq {
      OthersLoseSlot(w, i, steps, j, r);
    }
  }

  lemma RunFirst(w: World, step: Step, rest: seq<Step>)
    ensures Run(w, [step] + rest) == Run(Next(w, step), rest)
  {
    assert ([step] + rest)[1..] == rest;
  }

  /** Two tabs asking at about the same time cancel each other, and no request is left. */
  lemma CrossingSendsLoseBoth() returns (steps: seq<Step>)
    ensures var w := Run(EMPTY, steps);
            w.nextReq == 2 && w.mail == {} && forall i, r :: !InFlight(w, i, r)
  {
    var both := World(map[0 := NEW_TAB, 1 := NEW_TAB], {}, 0);
    assert Next(Next(EMPTY, Open(0)), Open(1)) == both;
    var first := Next(both, Send(0, false));
    assert first.mail == {Takeover(0, 1)};
    var crossed := Next(first, Send(1, false));
    assert crossed.mail == {Takeover(0, 1), Takeover(1, 0)};
    var end := Next(Next(crossed, Deliver(0, 1)), Deliver(1, 0));
    assert end.mail == {} && end.nextReq == 2;
    steps := [Open(0)] + ([Open(1)] + ([Send(0, false)] + ([Send(1, false)] + ([Deliver(0, 1)] + [Deliver(1, 0)]))));
    hide Next;
    RunFirst(EMPTY, Open(0), steps[1..]);
    RunFirst(Next(EMPTY, Open(0)), Open(1), steps[2..]);
    RunFirst(both, Send(0, false), steps[3..]);
    RunFirst(first, Send(1, false), steps[4..]);
    RunFirst(crossed, Deliver(0, 1), steps[5..]);
    RunFirst(Next(crossed, Deliver(0, 1)), Deliver(1, 0), []);
  }

  // ---------------------------------------------------------------- results within a tab

  /** Between events the loading flag, a live controller and an active id are equivalent in every tab, the
      controller is the active request's, every other call still out has been aborted, so at most one live call
      per tab exists, and the chat shows each reply right after its own question. */
  lemma {:induction false} TabsStayConsistent(steps: seq<Step>, i: TabId)
    requires i in Run(EMPTY, steps).tabs
    ensures var t := Run(EMPTY, steps).tabs[i];
            && (t.isLoading <==> t.controller.Some?) && (t.controller.Some? <==> t.activeReq.Some?)
            && t.controller == t.activeReq && Transcript(t.messages)
            && (forall r | r in t.pending && r !in t.aborted :: t.controller == Some(r))
  {
    RunKeepsInv(EMPTY, steps);
  }

  /** However the call in the slot ends, its tab is ready for the next question. */
  lemma SettlingFreesTheSlot(w: World, i: TabId, r: Req, result: Result)
    requires Inv(w) && InFlight(w, i, r) && CanEnd(w.tabs[i], r, result)
    ensures var t := Next(w, Respond(i, r, result)).tabs[i];
            && t.controller.None? && t.activeReq.None? && !t.isLoading
            && t.messages == w.tabs[i].messages + [Reply(r)]
  {
    assert TabInv(w.tabs[i], w.nextReq);
  }

  /** Clearing the chat concerns the chat alone: the call in the slot goes on, and whatever its end adds
      to the old chat it adds to the fresh one. */
  lemma ClearCommutesWithReplies(t: Tab, r: Req, result: Result)
    ensures var cleared := Settle(ClearMessages(t), r, result);
            var kept := Settle(t, r, result);
            && |kept.messages| >= |t.messages|
            && cleared == kept.(messages := [Greeting] + kept.messages[|t.messages|..])
  {
  }

  /** Cancelling aborts the call in the slot and leaves the chat as it is; a blank question does nothing. */
  lemma CancelAborts(w: World, i: TabId, r: Req)
    requires Inv(w) && InFlight(w, i, r)
    ensures var t := Next(w, Cancel(i)).tabs[i];
            t.controller.None? && !t.isLoading && r in t.aborted && t.messages == w.tabs[i].messages
    ensures Next(w, Send(i, true)) == w
  {
    assert TabInv(w.tabs[i], w.nextReq);
  }

  // ---------------------------------------------------------------- the transcript

  /** What a step shows in tab `i`: a question asked there, or the reply to the tab's current request. */
  function Shown(w: World, s: Step, i: TabId): seq<Message>
    requires i in w.tabs
  {
    if s.Send? && s.tab == i && !s.blank then [User(w.nextReq)]
    else if s.Respond? && s.tab == i && InFlight(w, i, s.req) && !s.result.Cancelled? then [Reply(s.req)]
    else []
  }

  lemma TabsStayOpen(w: World, s: Step, i: TabId)
    requires i in w.tabs
    ensures i in Next(w, s).tabs
  {
  }

  /** Every step but a clear keeps the chat of every tab and appends what it shows there. */
  lemma StepAppends(w: World, s: Step, i: TabId)
    requires Inv(w) && i in w.tabs && s != Clear(i)
    ensures i in Next(w, s).tabs && Next(w, s).tabs[i].messages == w.tabs[i].messages + Shown(w, s, i)
  {
    assert TabInv(w.tabs[i], w.nextReq);
  }

  /** Everything the steps show in tab `i`, in order. */
  function ShownBy(w: World, steps: seq<Step>, i: TabId): seq<Message>
    requires i in w.tabs
    decreases steps
  {
    if steps == [] then []
    else
      TabsStayOpen(w, steps[0], i);
      Shown(w, steps[0], i) + ShownBy(Next(w, steps[0]), steps[1..], i)
  }

  lemma Associative(a: seq<Message>, b: seq<Message>, c: seq<Message>)
    ensures a + b + c == a + (b + c)
  {
  }

  /** While a chat is not cleared, it is what it was, followed by every question asked in its tab and every
      reply to the request current there, in the order of the events; nothing else is ever added or lost. */
  lemma {:induction false} ChatIsTheHistory(w: World, steps: seq<Step>, i: TabId)
    requires Inv(w) && i in w.tabs && Clear(i) !in steps
    ensures i in Run(w, steps).tabs && Run(w, steps).tabs[i].messages == w.tabs[i].messages + ShownBy(w, steps, i)
    decreases steps
  {
    if steps != [] {
      hide Inv, Next, Shown;
      var d, later := Next(w, steps[0]), steps[1..];
      assert steps[0] in steps && Clear(i) !in later;
      StepAppends(w, steps[0], i);
      NextKeepsInv(w, steps[0]);
      ChatIsTheHistory(d, later, i);
      assert Run(w, steps) == Run(d, later) && ShownBy(w, steps, i) == Shown(w, steps[0], i) + ShownBy(d, later, i);
      hide Run, ShownBy;
      Associative(w.tabs[i].messages, Shown(w, steps[0], i), ShownBy(d, later, i));
    }
  }

  /** A tab opened at any point of any run shows the greeting and then its whole history. */
  lemma {:induction false} NewTabShowsItsHistory(before: seq<Step>, i: TabId, steps: seq<Step>)
    requires i !in Run(EMPTY, before).tabs && Clear(i) !in steps
    ensures var begun := Next(Run(EMPTY, before), Open(i));
            && i in begun.tabs && i in Run(begun, steps).tabs
            && Run(begun, steps).tabs[i].messages == [Greeting] + ShownBy(begun, steps, i)
  {
    RunKeepsInv(EMPTY, before);
    NextKeepsInv(Run(EMPTY, before), Open(i));
    ChatIsTheHistory(Next(Run(EMPTY, before), Open(i)), steps, i);
  }

  // ---------------------------------------------------------------- replies

  predicate Replies(w: World, s: Step, r: Req) {
    s.tab in w.tabs && s.tab in Next(w, s).tabs
    && Next(w, s).tabs[s.tab].messages == w.tabs[s.tab].messages + [Reply(r)]
  }

  /** How many replies to request `r` the steps append, in any tab. */
  function RepliesTo(w: World, steps: seq<Step>, r: Req): nat
    decreases steps
  {
    if steps == [] then 0
    else
      (if Replies(w, steps[0], r) then 1 else 0) + RepliesTo(Next(w, steps[0]), steps[1..], r)
  }

  /** A call's end appends a reply exactly if the call is the tab's current one and was not cancelled. */
  lemma ReplyIffCurrent(w: World, i: TabId, r: Req, result: Result)
    requires Inv(w) && i in w.tabs && r in w.tabs[i].pending
    ensures Replies(w, Respond(i, r, result), r) <==> InFlight(w, i, r) && !result.Cancelled?
  {
    var t := w.tabs[i];
    assert TabInv(t, w.nextReq);
    if Settle(t, r, result).messages != t.messages {
      assert Settle(t, r, result).messages == t.messages + [Reply(r)];
    } else {
      assert |t.messages| != |t.messages + [Reply(r)]|;
    }
  }

  /** A reply is appended only to the request in the slot, and frees it. */
  lemma ReplyTakesTheSlot(w: World, s: Step, r: Req)
    requires Inv(w) && Replies(w, s, r)
    ensures s.Respond? && s.req == r && InFlight(w, s.tab, r) && r < w.nextReq
    ensures forall i :: !InFlight(Next(w, s), i, r)
  {
    var t := w.tabs[s.tab];
    assert TabInv(t, w.nextReq);
    assert Next(w, s).tabs[s.tab].messages[|t.messages|] == Reply(r);
    forall i: TabId ensures !InFlight(Next(w, s), i, r) {
      if i != s.tab && i in w.tabs { assert TabInv(w.tabs[i], w.nextReq) && r in t.pending; }
    }
  }

  lemma SlotIsNotRegained(w: World, s: Step, r: Req)
    requires Inv(w) && r < w.nextReq && forall i :: !InFlight(w, i, r)
    ensures r < Next(w, s).nextReq && forall i :: !InFlight(Next(w, s), i, r)
  {
    forall i: TabId ensures !InFlight(Next(w, s), i, r) {
      assert !InFlight(w, i, r);
      if i in w.tabs { assert TabInv(w.tabs[i], w.nextReq); }
    }
  }

  lemma {:induction false} NoReplyOnceSuperseded(w: World, steps: seq<Step>, r: Req)
    requires Inv(w) && r < w.nextReq && forall i :: !InFlight(w, i, r)
    ensures RepliesTo(w, steps, r) == 0
    decreases steps
  {
    if steps != [] {
      NextKeepsInv(w, steps[0]);
      SlotIsNotRegained(w, steps[0], r);
      if Replies(w, steps[0], r) { ReplyTakesTheSlot(w, steps[0], r); }
      NoReplyOnceSuperseded(Next(w, steps[0]), steps[1..], r);
    }
  }

  /** Over any run a send gets at most one reply, and none once another send, a cancel or a TAKEOVER has
      taken its place, however late its response arrives. */
  lemma {:induction false} AtMostOneReply(w: World, steps: seq<Step>, r: Req)
    requires Inv(w)
    ensures RepliesTo(w, steps, r) <= 1
    decreases steps
  {
    if steps != [] {
      NextKeepsInv(w, steps[0]);
      if Replies(w, steps[0], r) {
        ReplyTakesTheSlot(w, steps[0], r);
        assert r < Next(w, steps[0]).nextReq;
        NoReplyOnceSuperseded(Next(w, steps[0]), steps[1..], r);
      } else {
        AtMostOneReply(Next(w, steps[0]), steps[1..], r);
      }
    }
  }
}
