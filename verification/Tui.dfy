/** src/server/tui.rs: the event loop of the server's terminal interface, which holds the queue of
    clients that wait for the operator. */
module Tui {
  import opened Wrappers
  import opened Noise

  datatype KeyCode = Enter | Esc | Char(c: char) | OtherKey

  datatype Event = Key(code: KeyCode, control: bool) | OtherEvent

  /** A client's id (its public key) and the channel on which its `submit` waits for the answer. */
  datatype Request = Request(client: seq<Octet>, reply: nat)

  datatype TermMsg = Input(event: Event) | Log(text: string) | ClientRequest(request: Request)

  datatype TuiState = TuiState(clients: seq<Request>, selected: Option<nat>, logs: seq<string>)

  const LOG_SCROLLBACK := 1000

  /** A value sent on a request's reply channel. */
  datatype Answer = Answer(request: Request, approved: bool)

  // ----- what one message does -----

  predicate Quits(msg: TermMsg) {
    msg.Input? && msg.event.Key? &&
    (msg.event.code == Esc || msg.event.code == Char('q') || (msg.event.code == Char('c') && msg.event.control))
  }

  /** The answer a key gives to the selected client. */
  function Verdict(msg: TermMsg): Option<bool> {
    if !msg.Input? || !msg.event.Key? then None
    else if msg.event.code == Enter then Some(true)
    else if msg.event.code == Char('n') then Some(false)
    else None
  }

  function Pred(n: nat): nat {
    if n == 0 then 0 else n - 1
  }

  function Without<T>(s: seq<T>, i: nat): seq<T>
    requires i < |s|
  {
    s[..i] + s[i + 1..]
  }

  /** The client that a key answers, if there is one at the selected place. */
  function Answered(t: TuiState, msg: TermMsg): Option<Answer> {
    match (t.selected, Verdict(msg))
    case (Some(i), Some(v)) => if i < |t.clients| then Some(Answer(t.clients[i], v)) else None
    case _ => None
  }

  function Select(t: TuiState, code: KeyCode): Option<nat> {
    match code
    case Char('k') => if t.selected.None? then Some(0) else Some(Pred(t.selected.value))
    case Char('j') => if t.selected.None? then Some(0) else Some(Min(t.selected.value + 1, Pred(|t.clients|)))
    case _ => t.selected
  }

  function Step(t: TuiState, msg: TermMsg): TuiState {
    match msg
    case Input(OtherEvent) => t
    case Input(Key(code, _)) =>
      if Answered(t, msg).Some? then t.(clients := Without(t.clients, t.selected.value))
      else t.(selected := Select(t, code))
    case Log(text) =>
      var logs := t.logs + [text];
      t.(logs := if |logs| > LOG_SCROLLBACK then logs[1..] else logs)
    case ClientRequest(r) => t.(clients := t.clients + [r])
  }

  const EMPTY := TuiState([], None, [])

  /** The state after a sequence of messages. */
  function After(msgs: seq<TermMsg>): TuiState {
    if msgs == [] then EMPTY else Step(After(msgs[..|msgs| - 1]), msgs[|msgs| - 1])
  }

  function AnswersOf(t: TuiState, msg: TermMsg): seq<Answer> {
    if Answered(t, msg).Some? then [Answered(t, msg).value] else []
  }

  /** The answers given along a sequence of messages. */
  function Answers(msgs: seq<TermMsg>): seq<Answer> {
    if msgs == [] then []
    else
      var (before, last) := (msgs[..|msgs| - 1], msgs[|msgs| - 1]);
      Answers(before) + AnswersOf(After(before), last)
  }

  function RequestIn(msg: TermMsg): seq<Request> {
    if msg.ClientRequest? then [msg.request] else []
  }

  function AnsweredBy(t: TuiState, msg: TermMsg): seq<Request> {
    match Answered(t, msg)
    case None => []
    case Some(a) => [a.request]
  }

  function Requests(msgs: seq<TermMsg>): seq<Request> {
    if msgs == [] then [] else Requests(msgs[..|msgs| - 1]) + RequestIn(msgs[|msgs| - 1])
  }

  lemma Unfold(msgs: seq<TermMsg>)
    requires msgs != []
    ensures var (before, last) := (msgs[..|msgs| - 1], msgs[|msgs| - 1]);
            && After(msgs) == Step(After(before), last)
            && Requests(msgs) == Requests(before) + RequestIn(last)
            && RequestsOf(Answers(msgs)) == RequestsOf(Answers(before)) + AnsweredBy(After(before), last)
  {
    hide Step, Requests, Answered, After;
    var (before, last) := (msgs[..|msgs| - 1], msgs[|msgs| - 1]);
    assert Answers(msgs) == Answers(before) + AnswersOf(After(before), last);
    UnfoldRest(msgs);
  }

  lemma UnfoldRest(msgs: seq<TermMsg>)
    requires msgs != []
    ensures var (before, last) := (msgs[..|msgs| - 1], msgs[|msgs| - 1]);
            After(msgs) == Step(After(before), last) && Requests(msgs) == Requests(before) + RequestIn(last)
  {
  }

  function RequestsOf(answers: seq<Answer>): seq<Request> {
    seq(|answers|, i requires 0 <= i < |answers| => answers[i].request)
  }

  function Logged(msgs: seq<TermMsg>): seq<string> {
    if msgs == [] then []
    else
      var last := msgs[|msgs| - 1];
      Logged(msgs[..|msgs| - 1]) + if last.Log? then [last.text] else []
  }

  // ----- what holds after every sequence of messages -----

  /** The selection is never beyond the place behind the last client, so a key answers the selected
      client or nobody. */
  lemma {:induction false} SelectionInRange(msgs: seq<TermMsg>)
    ensures After(msgs).selected.Some? ==> After(msgs).selected.value <= |After(msgs).clients|
    decreases |msgs|
  {
    if msgs == [] {
    } else {
      SelectionInRange(msgs[..|msgs| - 1]);
    }
  }

  /** The log shows the last 1000 messages that were logged, or all of them. */
  lemma {:induction false} LogIsTheTail(msgs: seq<TermMsg>)
    ensures var (all, kept) := (Logged(msgs), Min(|Logged(msgs)|, 1000));
            After(msgs).logs == all[|all| - kept..]
    decreases |msgs|
  {
    if msgs == [] {
    } else {
      var (before, last) := (msgs[..|msgs| - 1], msgs[|msgs| - 1]);
      LogIsTheTail(before);
      var (all, kept) := (Logged(before), Min(|Logged(before)|, LOG_SCROLLBACK));
      if last.Log? {
        var more := all[|all| - kept..] + [last.text];
        assert more == (all + [last.text])[|all| - kept..];
        assert more[1..] == (all + [last.text])[|all| - kept + 1..];
      } else {
        assert Logged(msgs) == all && After(msgs).logs == After(before).logs;
      }
    }
  }

  lemma WithoutOne<T>(s: seq<T>, i: nat, x: T)
    requires i < |s|
    ensures multiset(s)[x] == multiset(Without(s, i))[x] + if x == s[i] then 1 else 0
    ensures forall j :: 0 <= j < |s| - 1 ==> Without(s, i)[j] == s[if j < i then j else j + 1]
  {
    assert s == s[..i] + [s[i]] + s[i + 1..];
  }

  lemma AppendOne<T>(s: seq<T>, last: T, x: T)
    ensures multiset(s + [last])[x] == multiset(s)[x] + if x == last then 1 else 0
  {
  }

  /** One message, seen from the queue: what it adds is its request, what it takes is the answered. */
  lemma StepCounts(t: TuiState, msg: TermMsg, r: Request)
    ensures multiset(Step(t, msg).clients)[r] + (if AnsweredBy(t, msg) == [r] then 1 else 0)
         == multiset(t.clients)[r] + (if RequestIn(msg) == [r] then 1 else 0)
  {
    if Answered(t, msg).Some? {
      WithoutOne(t.clients, t.selected.value, r);
    } else if msg.ClientRequest? {
      AppendOne(t.clients, msg.request, r);
    }
  }

  lemma {:induction false} RequestCount(msgs: seq<TermMsg>, r: Request)
    ensures multiset(Requests(msgs))[r] == multiset(After(msgs).clients)[r] + multiset(RequestsOf(Answers(msgs)))[r]
    decreases |msgs|
  {
    if msgs == [] {
    } else {
      var (before, last) := (msgs[..|msgs| - 1], msgs[|msgs| - 1]);
      var t := After(before);
      Unfold(msgs);
      hide After, Answers, Requests, Answered, Step;
      RequestCount(before, r);
      StepCounts(t, last, r);
      AppendAtMostOne(Requests(before), RequestIn(last), r);
      AppendAtMostOne(RequestsOf(Answers(before)), AnsweredBy(t, last), r);
    }
  }

  lemma AppendAtMostOne(s: seq<Request>, more: seq<Request>, r: Request)
    requires |more| <= 1
    ensures multiset(s + more)[r] == multiset(s)[r] + if more == [r] then 1 else 0
  {
  }

  /** Requests are conserved: those received are those still in the queue and those answered. */
  lemma RequestsConserved(msgs: seq<TermMsg>)
    ensures multiset(Requests(msgs)) == multiset(After(msgs).clients) + multiset(RequestsOf(Answers(msgs)))
  {
    forall r: Request
      ensures multiset(Requests(msgs))[r] == multiset(After(msgs).clients)[r] + multiset(RequestsOf(Answers(msgs)))[r]
    {
      RequestCount(msgs, r);
    }
  }

  /** A waiting client has asked; one that has asked is waiting or answered. */
  lemma AskedIsWaitingOrAnswered(msgs: seq<TermMsg>, r: Request)
    ensures r in After(msgs).clients ==> r in Requests(msgs)
    ensures r in Requests(msgs) ==> r in After(msgs).clients || r in RequestsOf(Answers(msgs))
  {
    RequestCount(msgs, r);
    hide After, Answers, Requests, RequestsOf;
    var (all, queue, done) := (Requests(msgs), After(msgs).clients, RequestsOf(Answers(msgs)));
    assert (r in all <==> multiset(all)[r] > 0) && (r in queue <==> multiset(queue)[r] > 0);
    assert r in done <==> multiset(done)[r] > 0;
  }

  /** Where in the order of arrival the waiting clients are. */
  function Places(msgs: seq<TermMsg>): seq<nat> {
    if msgs == [] then []
    else
      var (before, last) := (msgs[..|msgs| - 1], msgs[|msgs| - 1]);
      PlacesAfter(After(before), last, Requests(before), Places(before))
  }

  /** The places after one more message. */
  function PlacesAfter(t: TuiState, msg: TermMsg, all: seq<Request>, places: seq<nat>): seq<nat> {
    if Answered(t, msg).Some? && t.selected.value < |places| then Without(places, t.selected.value)
    else if msg.ClientRequest? then places + [|all|]
    else places
  }

  /** The queue holds the requests at these places of their order of arrival, which ascend. */
  predicate InOrder(queue: seq<Request>, all: seq<Request>, places: seq<nat>) {
    && |places| == |queue|
    && (forall i :: 0 <= i < |places| ==> places[i] < |all| && all[places[i]] == queue[i])
    && (forall i, j :: 0 <= i < j < |places| ==> places[i] < places[j])
  }

  lemma InOrderWithout(queue: seq<Request>, all: seq<Request>, places: seq<nat>, i: nat)
    requires InOrder(queue, all, places) && i < |queue|
    ensures InOrder(Without(queue, i), all, Without(places, i))
  {
  }

  /** The clients that wait do so in the order in which they came. */
  lemma {:induction false} QueueKeepsArrivalOrder(msgs: seq<TermMsg>)
    ensures InOrder(After(msgs).clients, Requests(msgs), Places(msgs))
    decreases |msgs|
  {
    if msgs == [] {
    } else {
      var (before, last) := (msgs[..|msgs| - 1], msgs[|msgs| - 1]);
      var (t, places, all) := (After(before), Places(before), Requests(before));
      QueueKeepsArrivalOrder(before);
      assert After(msgs) == Step(t, last) && Requests(msgs) == all + RequestIn(last);
      assert Places(msgs) == PlacesAfter(t, last, all, places);
      hide After, Requests, Places;
      NextInOrder(t, last, all, places);
    }
  }

  lemma NextInOrder(t: TuiState, msg: TermMsg, all: seq<Request>, places: seq<nat>)
    requires InOrder(t.clients, all, places)
    ensures InOrder(Step(t, msg).clients, all + RequestIn(msg), PlacesAfter(t, msg, all, places))
  {
    assert all + [] == all;
    if Answered(t, msg).Some? {
      InOrderWithout(t.clients, all, places, t.selected.value);
    }
  }

  /** Request `r` is the selected one. */
  predicate IsSelected(t: TuiState, r: Request) {
    t.selected.Some? && t.selected.value < |t.clients| && t.clients[t.selected.value] == r
  }

  /** A press of this key, with or without control. */
  predicate IsKey(msg: TermMsg, code: KeyCode) {
    msg.Input? && msg.event.Key? && msg.event.code == code
  }

  /** The message at `k` is Enter if `approved`, and 'n' if not, pressed while the request was the selected
      one. */
  predicate PressedAt(msgs: seq<TermMsg>, k: nat, a: Answer) {
    && k < |msgs|
    && IsKey(msgs[k], if a.approved then Enter else Char('n'))
    && IsSelected(After(msgs[..k]), a.request)
  }

  ghost predicate Pressed(msgs: seq<TermMsg>, a: Answer) {
    exists k :: PressedAt(msgs, k, a)
  }

  /** What a key answers: Enter approves the selected client, 'n' denies it, nothing else answers. */
  lemma KeyAnswers(t: TuiState, msg: TermMsg, a: Answer)
    ensures a in AnswersOf(t, msg) <==>
              IsSelected(t, a.request) && IsKey(msg, if a.approved then Enter else Char('n'))
  {
  }

  /** A request was answered by the last message, or by one before it. */
  lemma PressedLast(msgs: seq<TermMsg>, a: Answer)
    requires msgs != []
    ensures var (before, last) := (msgs[..|msgs| - 1], msgs[|msgs| - 1]);
            Pressed(msgs, a) <==>
              Pressed(before, a)
              || (IsKey(last, if a.approved then Enter else Char('n')) && IsSelected(After(before), a.request))
  {
    hide After, IsSelected, IsKey;
    var (before, n) := (msgs[..|msgs| - 1], |msgs| - 1);
    forall k: nat | k < n
      ensures PressedAt(msgs, k, a) <==> PressedAt(before, k, a)
    {
      assert msgs[..k] == before[..k];
    }
    assert PressedAt(msgs, n, a) <==>
        IsKey(msgs[n], if a.approved then Enter else Char('n')) && IsSelected(After(before), a.request);
    hide PressedAt;
    if k :| PressedAt(before, k, a) {
      BeforeEnd(before, k, a);
      assert PressedAt(msgs, k, a);
    }
    if k :| PressedAt(msgs, k, a) {
      BeforeEnd(msgs, k, a);
    }
  }

  lemma BeforeEnd(msgs: seq<TermMsg>, k: nat, a: Answer)
    requires PressedAt(msgs, k, a)
    ensures k < |msgs|
  {
  }

  /** A client was answered exactly if some key did it while that client was selected: Enter to
      approve, 'n' to deny. */
  lemma {:induction false} AnswersComeFromKeys(msgs: seq<TermMsg>, a: Answer)
    ensures a in Answers(msgs) <==> Pressed(msgs, a)
    decreases |msgs|
  {
    if msgs == [] {
    } else {
      var (before, last) := (msgs[..|msgs| - 1], msgs[|msgs| - 1]);
      assert Answers(msgs) == Answers(before) + AnswersOf(After(before), last);
      hide Answers, AnswersOf, After, IsSelected, IsKey, Pressed;
      AnswersComeFromKeys(before, a);
      KeyAnswers(After(before), last, a);
      PressedLast(msgs, a);
    }
  }

  predicate Distinct(requests: seq<Request>) {
    forall a, b :: 0 <= a < b < |requests| ==> requests[a].reply != requests[b].reply
  }

  /** When every request has a reply channel of its own, each channel gets at most one value, and
      none while its request is still in the queue. */
  lemma OneAnswerEach(msgs: seq<TermMsg>)
    requires Distinct(Requests(msgs))
    ensures Distinct(After(msgs).clients + RequestsOf(Answers(msgs)))
  {
    RequestsConserved(msgs);
    DistinctReplies(Requests(msgs), After(msgs).clients + RequestsOf(Answers(msgs)));
  }

  lemma DistinctPrefix(some: seq<Request>, all: seq<Request>)
    requires some <= all && Distinct(all)
    ensures Distinct(some)
  {
  }

  lemma DistinctReplies(all: seq<Request>, other: seq<Request>)
    requires multiset(all) == multiset(other)
    requires Distinct(all)
    ensures Distinct(other)
  {
    forall a, b | 0 <= a < b < |other|
      ensures other[a].reply != other[b].reply
    {
      assert other[a] in multiset(all) && other[b] in multiset(all);
      var m :| 0 <= m < |all| && all[m] == other[a];
      var n :| 0 <= n < |all| && all[n] == other[b];
      if m == n {
        TwiceIn(other, a, b);
        OnceIn(all, m);
      }
    }
  }

  lemma TwiceIn<T>(s: seq<T>, a: nat, b: nat)
    requires a < b < |s| && s[a] == s[b]
    ensures multiset(s)[s[a]] >= 2
  {
    assert s == s[..a] + [s[a]] + s[a + 1..b] + [s[b]] + s[b + 1..];
  }

  lemma OnceIn(all: seq<Request>, m: nat)
    requires m < |all|
    requires Distinct(all)
    ensures multiset(all)[all[m]] == 1
  {
    var x := all[m];
    assert all == all[..m] + [x] + all[m + 1..];
    assert x !in all[..m] && x !in all[m + 1..];
  }

  // ----- the operator can get at every client -----

  predicate OnlyKeys(msgs: seq<TermMsg>) {
    forall m :: m in msgs ==> m.Input? && m.event.Key? && !Quits(m)
  }

  lemma OnlyKeysAppend(a: seq<TermMsg>, b: seq<TermMsg>)
    requires OnlyKeys(a) && OnlyKeys(b)
    ensures OnlyKeys(a + b)
  {
  }

  lemma OneKey(msgs: seq<TermMsg>, key: TermMsg)
    ensures After(msgs + [key]) == Step(After(msgs), key)
    ensures Answers(msgs + [key]) == Answers(msgs) + AnswersOf(After(msgs), key)
  {
  }

  function Distance(selected: Option<nat>, i: nat): nat {
    match selected
    case None => i + 1
    case Some(x) => if x > i then x - i else i - x
  }

  /** The key that moves the selection towards place `i`: 'j' downwards, and to the first place when
      nothing is selected; 'k' upwards. */
  function KeyTowards(selected: Option<nat>, i: nat): TermMsg {
    Input(Key(Char(if selected.None? || selected.value < i then 'j' else 'k'), false))
  }

  lemma Towards(t: TuiState, i: nat)
    requires i < |t.clients| && t.selected != Some(i)
    ensures var (key, to) := (KeyTowards(t.selected, i), Step(t, KeyTowards(t.selected, i)).selected);
            && OnlyKeys([key]) && AnswersOf(t, key) == [] && Step(t, key) == t.(selected := to)
            && Distance(to, i) + 1 == Distance(t.selected, i)
            && (to != Some(i) ==> KeyTowards(to, i) == key)
  {
    var code := Char(if t.selected.None? || t.selected.value < i then 'j' else 'k');
    assert Answered(t, KeyTowards(t.selected, i)) == None;
    assert Step(t, KeyTowards(t.selected, i)) == t.(selected := Select(t, code));
    hide Step, Answered, Quits;
  }

  predicate Repeats(keys: seq<TermMsg>, key: TermMsg, n: nat) {
    |keys| == n && forall k :: k in keys ==> k == key
  }

  /** So many presses of one of the two, 'j' downwards and 'k' upwards, move the selection to any place of
      the queue as lie between, and do nothing else. */
  lemma {:induction false} KeysSelect(msgs: seq<TermMsg>, i: nat) returns (keys: seq<TermMsg>)
    requires i < |After(msgs).clients|
    ensures var from := After(msgs).selected;
            from != Some(i) ==> Repeats(keys, KeyTowards(from, i), Distance(from, i))
    ensures After(msgs).selected == Some(i) ==> keys == []
    ensures OnlyKeys(keys)
    ensures After(msgs + keys) == After(msgs).(selected := Some(i)) && Answers(msgs + keys) == Answers(msgs)
    decreases Distance(After(msgs).selected, i)
  {
    hide After, Answers, Step, KeyTowards;
    if After(msgs).selected == Some(i) {
      keys := [];
      assert msgs + keys == msgs;
    } else {
      var key := KeyTowards(After(msgs).selected, i);
      Towards(After(msgs), i);
      OneKey(msgs, key);
      assert Answers(msgs) + [] == Answers(msgs);
      var more := KeysSelect(msgs + [key], i);
      OnlyKeysAppend([key], more);
      hide OnlyKeys;
      keys := [key] + more;
      assert msgs + keys == msgs + [key] + more;
    }
  }

  lemma AnswerKey(t: TuiState, i: nat, approved: bool)
    requires t.selected == Some(i) && i < |t.clients|
    ensures var key := Input(Key(if approved then Enter else Char('n'), false));
            && OnlyKeys([key]) && AnswersOf(t, key) == [Answer(t.clients[i], approved)]
            && Step(t, key).clients == Without(t.clients, i)
  {
  }

  /** Whatever has happened, the operator can give whichever waiting client either answer, and need not
      answer anybody else for it. */
  lemma AnyoneCanBeAnswered(msgs: seq<TermMsg>, i: nat, approved: bool) returns (keys: seq<TermMsg>)
    requires i < |After(msgs).clients|
    ensures OnlyKeys(keys)
    ensures Answers(msgs + keys) == Answers(msgs) + [Answer(After(msgs).clients[i], approved)]
    ensures After(msgs + keys).clients == Without(After(msgs).clients, i)
  {
    hide After, Answers, OnlyKeys, Repeats, KeyTowards, Distance, Step, AnswersOf, Without;
    keys := KeysSelect(msgs, i);
    var key := Input(Key(if approved then Enter else Char('n'), false));
    AnswerKey(After(msgs + keys), i, approved);
    OneKey(msgs + keys, key);
    OnlyKeysAppend(keys, [key]);
    assert msgs + (keys + [key]) == msgs + keys + [key];
    keys := keys + [key];
  }

  // ----- the loop -----

  lemma OneMore(rx: seq<TermMsg>, n: nat)
    requires n < |rx|
    ensures After(rx[..n + 1]) == Step(After(rx[..n]), rx[n])
    ensures Answers(rx[..n + 1])
         == Answers(rx[..n]) + AnswersOf(After(rx[..n]), rx[n])
  {
    assert rx[..n + 1][..n] == rx[..n] && rx[..n + 1][n] == rx[n];
  }

  /** The loop ends after message `n`: it quits, or the flag is set by then. */
  predicate Stops(rx: seq<TermMsg>, flagAt: set<nat>, n: nat)
    requires n < |rx|
  {
    Quits(rx[n]) || n + 1 in flagAt
  }

  class ServerTui {
    var clients: seq<Request>
    var selected: Option<nat>
    var logs: seq<string>
    /** What has been sent on reply channels. */
    var sent: seq<Answer>

    function State(): TuiState
      reads this
    {
      TuiState(clients, selected, logs)
    }

    constructor ()
      ensures State() == EMPTY && sent == []
    {
      clients, selected, logs, sent := [], None, [], [];
    }

    /** Take the selected client out of the queue and answer it. */
    method AnswerSelected(approved: bool)
      modifies this
      ensures selected == old(selected) && logs == old(logs)
      ensures selected.Some? && selected.value < |old(clients)| ==>
                && clients == Without(old(clients), selected.value)
                && sent == old(sent) + [Answer(old(clients)[selected.value], approved)]
      ensures !(selected.Some? && selected.value < |old(clients)|) ==> clients == old(clients) && sent == old(sent)
    {
      if selected.Some? {
        var i := selected.value;
        if i < |clients| {
          var request := clients[i];
          clients := clients[..i] + clients[i + 1..];
          sent := sent + [Answer(request, approved)];
        }
      }
    }

    method HandleKey(code: KeyCode, control: bool) returns (quit: bool)
      modifies this
      ensures var msg := Input(Key(code, control));
              && State() == Step(old(State()), msg)
              && sent == old(sent) + AnswersOf(old(State()), msg)
              && quit == Quits(msg)
    {
      quit := false;
      match code
      case Enter =>
        AnswerSelected(true);
      case Esc =>
        quit := true;
      case OtherKey =>
      case Char(c) =>
        if c == 'n' {
          AnswerSelected(false);
        } else if c == 'k' {
          selected := if selected.Some? then Some(Pred(selected.value)) else Some(0);
        } else if c == 'j' {
          selected := if selected.Some? then Some(Min(selected.value + 1, Pred(|clients|))) else Some(0);
        } else if c == 'q' || (c == 'c' && control) {
          quit := true;
        }
    }

    /** One round of the loop; `quit` is whether the shutdown flag was set and the loop left. */
    method Handle(msg: TermMsg) returns (quit: bool)
      modifies this
      ensures State() == Step(old(State()), msg)
      ensures sent == old(sent) + AnswersOf(old(State()), msg)
      ensures quit == Quits(msg)
    {
      quit := false;
      match msg
      case Input(Key(code, control)) =>
        quit := HandleKey(code, control);
      case Input(OtherEvent) =>
      case Log(text) =>
        logs := logs + [text];
        if |logs| > LOG_SCROLLBACK {
          logs := logs[1..];
        }
      case ClientRequest(r) =>
        clients := clients + [r];
    }

    /** The loop over what arrives on the channel, until a message quits or the shutdown flag is seen
        set after a message; `flagAt` holds the numbers of messages after which it is. */
    method Render(rx: seq<TermMsg>, flagAt: set<nat>) returns (handled: nat, quit: bool)
      requires State() == EMPTY && sent == []
      modifies this
      ensures handled <= |rx|
      ensures State() == After(rx[..handled]) && sent == Answers(rx[..handled])
      ensures quit <==> handled > 0 && Quits(rx[handled - 1])
      ensures forall n :: 0 <= n < handled - 1 ==> !Stops(rx, flagAt, n)
      ensures handled < |rx| ==> handled > 0 && Stops(rx, flagAt, handled - 1)
    {
      handled, quit := 0, false;
      var stop := false;
      assert After(rx[..0]) == EMPTY && Answers(rx[..0]) == [];
      hide After, Answers, Step, AnswersOf;
      while !stop && handled < |rx|
        invariant handled <= |rx|
        invariant State() == After(rx[..handled]) && sent == Answers(rx[..handled])
        invariant quit == (handled > 0 && Quits(rx[handled - 1]))
        invariant stop == (handled > 0 && Stops(rx, flagAt, handled - 1))
        invariant forall n :: 0 <= n < handled - 1 ==> !Stops(rx, flagAt, n)
        decreases |rx| - handled
      {
        OneMore(rx, handled);
        quit := Handle(rx[handled]);
        handled := handled + 1;
        stop := quit || handled in flagAt;
      }
    }
  }
}
