/** src/server/client_approver.rs: approval at the console. */
module Console {
  import opened Wrappers
  import opened Noise

  // ----- the answer in a line -----

  /** The Unicode White_Space property. */
  predicate IsWhitespace(c: char) {
    var n := c as int;
    || 0x09 <= n <= 0x0D || n == 0x20 || n == 0x85 || n == 0xA0 || n == 0x1680
    || 0x2000 <= n <= 0x200A || n == 0x2028 || n == 0x2029 || n == 0x202F || n == 0x205F || n == 0x3000
  }

  predicate AllWhitespace(s: string) {
    forall i :: 0 <= i < |s| ==> IsWhitespace(s[i])
  }

  function TrimStart(s: string): string {
    if s != "" && IsWhitespace(s[0]) then TrimStart(s[1..]) else s
  }

  function TrimEnd(s: string): string {
    if s != "" && IsWhitespace(s[|s| - 1]) then TrimEnd(s[..|s| - 1]) else s
  }

  function Trim(s: string): string {
    TrimEnd(TrimStart(s))
  }

  function LowerAscii(c: char): char {
    if 'A' <= c <= 'Z' then (c as int + 32) as char else c
  }

  predicate EqIgnoreAsciiCase(s: string, t: string) {
    |s| == |t| && forall i :: 0 <= i < |s| ==> LowerAscii(s[i]) == LowerAscii(t[i])
  }

  predicate Approves(line: string) {
    EqIgnoreAsciiCase(Trim(line), "y") || EqIgnoreAsciiCase(Trim(line), "yes")
  }

  /** The 25 characters with the Unicode White_Space property. */
  const WHITE_SPACE: set<char> :=
    {'\U{0009}', '\U{000A}', '\U{000B}', '\U{000C}', '\U{000D}', '\U{0020}', '\U{0085}', '\U{00A0}', '\U{1680}',
     '\U{2000}', '\U{2001}', '\U{2002}', '\U{2003}', '\U{2004}', '\U{2005}', '\U{2006}', '\U{2007}', '\U{2008}',
     '\U{2009}', '\U{200A}', '\U{2028}', '\U{2029}', '\U{202F}', '\U{205F}', '\U{3000}'}

  lemma WhitespaceExactly(c: char)
    ensures IsWhitespace(c) <==> c in WHITE_SPACE
  {
    if IsWhitespace(c) {
      assert c == c as int as char;
    }
  }

  const YESES: set<string> := {"y", "Y", "yes", "yeS", "yEs", "yES", "Yes", "YeS", "YEs", "YES"}

  lemma {:induction false} TrimStartPads(pad: string, s: string)
    requires AllWhitespace(pad) && (s == "" || !IsWhitespace(s[0]))
    ensures TrimStart(pad + s) == s
    decreases |pad|
  {
    if pad == "" {
      assert pad + s == s;
    } else {
      assert (pad + s)[1..] == pad[1..] + s;
      TrimStartPads(pad[1..], s);
    }
  }

  lemma {:induction false} TrimEndPads(s: string, pad: string)
    requires AllWhitespace(pad) && (s == "" || !IsWhitespace(s[|s| - 1]))
    ensures TrimEnd(s + pad) == s
    decreases |pad|
  {
    if pad == "" {
      assert s + pad == s;
    } else {
      assert (s + pad)[..|s + pad| - 1] == s + pad[..|pad| - 1];
      TrimEndPads(s, pad[..|pad| - 1]);
    }
  }

  lemma {:induction false} TrimStartParts(s: string) returns (pad: string)
    ensures AllWhitespace(pad) && s == pad + TrimStart(s)
    ensures TrimStart(s) == "" || !IsWhitespace(TrimStart(s)[0])
    decreases |s|
  {
    pad := "";
    if s != "" && IsWhitespace(s[0]) {
      pad := TrimStartParts(s[1..]);
      pad := [s[0]] + pad;
    }
  }

  lemma {:induction false} TrimEndParts(s: string) returns (pad: string)
    ensures AllWhitespace(pad) && s == TrimEnd(s) + pad
    decreases |s|
  {
    pad := "";
    if s != "" && IsWhitespace(s[|s| - 1]) {
      pad := TrimEndParts(s[..|s| - 1]);
      pad := pad + [s[|s| - 1]];
    }
  }

  lemma YesesExactly(s: string)
    ensures s in YESES <==> EqIgnoreAsciiCase(s, "y") || EqIgnoreAsciiCase(s, "yes")
  {
    if |s| == 1 {
      assert s == [s[0]];
    } else if |s| == 3 {
      assert s == [s[0], s[1], s[2]];
    }
  }

  ghost predicate IsPaddedYes(line: string) {
    exists a, yes, b :: PaddedYes(line, a, yes, b)
  }

  predicate PaddedYes(line: string, a: string, yes: string, b: string) {
    && (forall c :: c in a ==> c in WHITE_SPACE) && (forall c :: c in b ==> c in WHITE_SPACE)
    && yes in YESES && line == a + yes + b
  }

  lemma PadExactly(pad: string)
    ensures AllWhitespace(pad) <==> forall c :: c in pad ==> c in WHITE_SPACE
  {
    forall c: char
      ensures IsWhitespace(c) <==> c in WHITE_SPACE
    {
      WhitespaceExactly(c);
    }
    hide IsWhitespace;
  }

  /** A yes typed with the return key behind it is a yes. */
  lemma TypedYes(yes: string)
    requires yes in YESES
    ensures Approves(yes + "\n") && Approves(yes + "\r\n")
  {
    hide Approves;
    assert "" + yes + "\n" == yes + "\n" && "" + yes + "\r\n" == yes + "\r\n";
    assert PaddedYes(yes + "\n", "", yes, "\n") && PaddedYes(yes + "\r\n", "", yes, "\r\n");
    ApprovesExactly(yes + "\n");
    ApprovesExactly(yes + "\r\n");
  }

  /** A line lets the client in exactly if it is one of ten words, with any white space around it. */
  lemma ApprovesExactly(line: string)
    ensures Approves(line) <==> IsPaddedYes(line)
  {
    YesesExactly(Trim(line));
    hide EqIgnoreAsciiCase;
    if Approves(line) {
      var a := TrimStartParts(line);
      var b := TrimEndParts(TrimStart(line));
      PadExactly(a);
      PadExactly(b);
      hide AllWhitespace, TrimStart, TrimEnd;
      assert line == a + Trim(line) + b;
      assert PaddedYes(line, a, Trim(line), b);
    }
    if IsPaddedYes(line) {
      var a, yes, b :| PaddedYes(line, a, yes, b);
      PaddedYesTrimmed(line, a, yes, b);
    }
  }

  lemma PaddedYesTrimmed(line: string, a: string, yes: string, b: string)
    requires PaddedYes(line, a, yes, b)
    ensures Trim(line) == yes
  {
    YesEnds(yes);
    PadExactly(a);
    PadExactly(b);
    hide AllWhitespace, IsWhitespace, TrimStart, TrimEnd;
    assert line == a + (yes + b);
    TrimStartPads(a, yes + b);
    TrimEndPads(yes, b);
  }

  lemma YesEnds(yes: string)
    requires yes in YESES
    ensures yes != "" && !IsWhitespace(yes[0]) && !IsWhitespace(yes[|yes| - 1])
  {
  }

  // ----- one submit -----

  /** A client is known by its public key. */
  type ClientId = seq<Octet>

  /** What the terminal shows and yields, in order: a question, then a line, or a failed read. */
  datatype Entry = Prompt(client: ClientId) | Line(text: string) | ReadFailed

  /** The terminal with the lines that will be typed on it; None is a read that fails. */
  class Terminal {
    var shown: seq<Entry>
    var typed: seq<Option<string>>

    constructor (typed: seq<Option<string>>)
      ensures shown == [] && this.typed == typed
    {
      shown, this.typed := [], typed;
    }

    method Print(client: ClientId)
      modifies this
      ensures shown == old(shown) + [Prompt(client)] && typed == old(typed)
    {
      shown := shown + [Prompt(client)];
    }

    /** At the end of the input a read succeeds with no text at all. */
    method ReadLine() returns (r: Option<string>)
      modifies this
      ensures r == if old(typed) == [] then Some("") else old(typed)[0]
      ensures typed == if old(typed) == [] then [] else old(typed)[1..]
      ensures shown == old(shown) + [if r.None? then ReadFailed else Line(r.value)]
    {
      r := if typed == [] then Some("") else typed[0];
      typed := if typed == [] then [] else typed[1..];
      shown := shown + [if r.None? then ReadFailed else Line(r.value)];
    }
  }

  /** `submit`, from taking the lock to releasing it: None is an error. */
  method Submit(terminal: Terminal, client: ClientId) returns (r: Option<bool>)
    modifies terminal
    ensures terminal.shown == old(terminal.shown) + [Prompt(client), AnswerTo(old(terminal.typed))]
    ensures r == Verdict(AnswerTo(old(terminal.typed)))
  {
    terminal.Print(client);
    var input := terminal.ReadLine();
    if input == None {
      return None;
    }
    return Some(Approves(input.value));
  }

  function AnswerTo(typed: seq<Option<string>>): Entry {
    if typed == [] then Line("")
    else
      match typed[0]
      case None => ReadFailed
      case Some(text) => Line(text)
  }

  function Verdict(answer: Entry): Option<bool> {
    match answer
    case Line(text) => Some(Approves(text))
    case _ => None
  }

  // ----- any number of submits at once -----

  /** Where one call of `submit` is; it waits for the lock first. */
  datatype Pc = Waiting | Locked | Prompted | Resolved(verdict: Option<bool>)

  /** The calls by number, each for its own client, who holds the lock, and the transcript. */
  datatype State = State(clients: seq<ClientId>, pcs: seq<Pc>, holder: Option<nat>, shown: seq<Entry>)

  datatype Step = Call(client: ClientId) | Lock(i: nat) | Ask(i: nat) | Answer(i: nat, line: Option<string>)

  predicate At(s: State, i: nat, pc: Pc) {
    i < |s.pcs| && s.pcs[i] == pc
  }

  function Next(s: State, step: Step): Option<State> {
    match step
    case Call(client) => Some(s.(clients := s.clients + [client], pcs := s.pcs + [Waiting]))
    case Lock(i) =>
      if At(s, i, Waiting) && s.holder == None then Some(s.(pcs := s.pcs[i := Locked], holder := Some(i)))
      else None
    case Ask(i) =>
      if At(s, i, Locked) && i < |s.clients|
      then Some(s.(pcs := s.pcs[i := Prompted], shown := s.shown + [Prompt(s.clients[i])]))
      else None
    case Answer(i, line) =>
      if At(s, i, Prompted) then
        var answer := if line.None? then ReadFailed else Line(line.value);
        Some(s.(pcs := s.pcs[i := Resolved(Verdict(answer))], holder := None, shown := s.shown + [answer]))
      else None
  }

  function Run(s: State, steps: seq<Step>): Option<State>
    decreases |steps|
  {
    if steps == [] then Some(s)
    else
      match Next(s, steps[0])
      case None => None
      case Some(s') => Run(s', steps[1..])
  }

  const IDLE := State([], [], None, [])

  /** The calls whose prompts were shown, in the order of their prompts: call `order[k]` asked the
      `k`-th question, which the next entry answers; only the last question can be open, and its call
      holds the lock. */
  predicate Served(s: State, order: seq<nat>) {
    && |s.clients| == |s.pcs|
    && (|s.shown| == 2 * |order| || |s.shown| + 1 == 2 * |order|)
    && (forall k :: 0 <= k < |order| ==> order[k] < |s.pcs| && s.shown[2 * k] == Prompt(s.clients[order[k]]))
    && (forall k :: 0 <= k < |order| && 2 * k + 1 < |s.shown| ==>
          !s.shown[2 * k + 1].Prompt? && s.pcs[order[k]] == Resolved(Verdict(s.shown[2 * k + 1])))
    && (forall j, k :: 0 <= j < k < |order| ==> order[j] != order[k])
    && (forall i :: 0 <= i < |s.pcs| && s.pcs[i].Resolved? ==> i in order)
  }

  /** Whoever is between the lock and the answer holds the lock. */
  predicate Exclusive(s: State, order: seq<nat>) {
    && (forall i :: 0 <= i < |s.pcs| && (s.pcs[i] == Locked || s.pcs[i] == Prompted) ==> s.holder == Some(i))
    && (s.holder.Some? ==> At(s, s.holder.value, Locked) || At(s, s.holder.value, Prompted))
    && (|s.shown| + 1 == 2 * |order| <==> s.holder.Some? && At(s, s.holder.value, Prompted))
    && (|s.shown| + 1 == 2 * |order| ==> order[|order| - 1] == s.holder.value)
  }

  function NextOrder(order: seq<nat>, step: Step): seq<nat> {
    if step.Ask? then order + [step.i] else order
  }

  lemma NextServed(s: State, order: seq<nat>, step: Step)
    requires Served(s, order) && Exclusive(s, order) && Next(s, step).Some?
    ensures Served(Next(s, step).value, NextOrder(order, step))
  {
    match step
    case Call(client) => CallServed(s, order, client);
    case Lock(i) => LockServed(s, order, i);
    case Ask(i) => AskServed(s, order, i);
    case Answer(i, line) => AnswerServed(s, order, i, line);
  }

  lemma CallServed(s: State, order: seq<nat>, client: ClientId)
    requires Served(s, order)
    ensures Served(Next(s, Call(client)).value, order)
  {
  }

  lemma LockServed(s: State, order: seq<nat>, i: nat)
    requires Served(s, order) && Exclusive(s, order) && Next(s, Lock(i)).Some?
    ensures Served(Next(s, Lock(i)).value, order)
  {
  }

  lemma AskServed(s: State, order: seq<nat>, i: nat)
    requires Served(s, order) && Exclusive(s, order) && Next(s, Ask(i)).Some?
    ensures Served(Next(s, Ask(i)).value, order + [i])
  {
  }

  lemma AnswerServed(s: State, order: seq<nat>, i: nat, line: Option<string>)
    requires Served(s, order) && Exclusive(s, order) && Next(s, Answer(i, line)).Some?
    ensures Served(Next(s, Answer(i, line)).value, order)
  {
  }

  lemma NextExclusive(s: State, order: seq<nat>, step: Step)
    requires |s.shown| == 2 * |order| || |s.shown| + 1 == 2 * |order|
    requires Exclusive(s, order) && Next(s, step).Some?
    ensures Exclusive(Next(s, step).value, NextOrder(order, step))
  {
    hide Verdict;
    match step
    case Call(_) =>
    case Lock(_) =>
    case Ask(_) =>
    case Answer(_, _) =>
  }

  lemma {:induction false} RunServed(s: State, order: seq<nat>, steps: seq<Step>) returns (order': seq<nat>)
    requires Served(s, order) && Exclusive(s, order) && Run(s, steps).Some?
    ensures Served(Run(s, steps).value, order') && Exclusive(Run(s, steps).value, order')
    decreases |steps|
  {
    if steps == [] {
      order' := order;
    } else {
      NextServed(s, order, steps[0]);
      NextExclusive(s, order, steps[0]);
      hide Served, Exclusive, Next;
      order' := RunServed(Next(s, steps[0]).value, NextOrder(order, steps[0]), steps[1..]);
    }
  }

  /** However many calls overlap: questions and answers alternate, beginning with a question. */
  lemma PromptsAndAnswersAlternate(steps: seq<Step>)
    requires Run(IDLE, steps).Some?
    ensures var shown := Run(IDLE, steps).value.shown;
            forall j :: 0 <= j < |shown| ==> (shown[j].Prompt? <==> j % 2 == 0)
  {
    var order := RunServed(IDLE, [], steps);
    var s := Run(IDLE, steps).value;
    hide Run, Exclusive, Verdict;
    forall j | 0 <= j < |s.shown|
      ensures s.shown[j].Prompt? <==> j % 2 == 0
    {
      var k := j / 2;
      assert j == 2 * k || j == 2 * k + 1;
      assert s.shown[2 * k] == Prompt(s.clients[order[k]]);
    }
  }

  /** The `k`-th question's client is decided by the `k`-th answer, and nobody else is: with the calls
      that asked listed in the order of their questions, each call at most once, a call is resolved
      exactly if its question has been answered, and then with that answer's verdict. */
  lemma AnswersDecideTheirPrompts(steps: seq<Step>) returns (asked: seq<nat>)
    requires Run(IDLE, steps).Some?
    ensures var s := Run(IDLE, steps).value;
            && |s.clients| == |s.pcs|
            && (|asked| == (|s.shown| + 1) / 2)
            && (forall j, k :: 0 <= j < k < |asked| ==> asked[j] != asked[k])
            && (forall k :: 0 <= k < |asked| ==> asked[k] < |s.pcs| && s.shown[2 * k] == Prompt(s.clients[asked[k]]))
            && (forall k :: 0 <= k < |asked| && 2 * k + 1 < |s.shown| ==>
                  s.pcs[asked[k]] == Resolved(Verdict(s.shown[2 * k + 1])))
            && (forall i :: 0 <= i < |s.pcs| ==>
                  (s.pcs[i].Resolved? <==> exists k :: 0 <= k < |asked| && asked[k] == i && 2 * k + 1 < |s.shown|))
  {
    asked := RunServed(IDLE, [], steps);
    var s := Run(IDLE, steps).value;
    hide Run, Verdict;
    forall i | 0 <= i < |s.pcs| && s.pcs[i].Resolved?
      ensures exists k :: 0 <= k < |asked| && asked[k] == i && 2 * k + 1 < |s.shown|
    {
      var k :| 0 <= k < |asked| && asked[k] == i;
      assert |s.shown| + 1 == 2 * |asked| ==> s.pcs[asked[|asked| - 1]] == Prompted;
    }
  }
}
