/** NUL-terminated text in fixed buffers. */
module CStrings {
  /** strlen: the index of the first NUL; the buffer size stands for "none", where
      the C function would read past the buffer. */
  function Strlen(buf: seq<char>): (n: nat)
    ensures n <= |buf|
    ensures '\0' !in buf[..n]
    ensures n < |buf| ==> buf[n] == '\0'
  {
    if buf == [] || buf[0] == '\0' then 0
    else
      assert forall i :: 0 < i < 1 + Strlen(buf[1..]) ==> buf[i] == buf[1..][i - 1];
      1 + Strlen(buf[1..])
  }

  function CStr(buf: seq<char>): string {
    buf[..Strlen(buf)]
  }

  function Zeros(n: nat): seq<char> {
    seq(n, _ => '\0')
  }

  predicate Terminated(buf: seq<char>) {
    Strlen(buf) < |buf|
  }

  /** The text of a terminated buffer, followed by NULs only. */
  predicate Padded(buf: seq<char>) {
    Terminated(buf) && buf == CStr(buf) + Zeros(|buf| - Strlen(buf))
  }

  lemma {:induction false} StrlenIs(buf: seq<char>, n: nat)
    requires n <= |buf| && '\0' !in buf[..n]
    requires n < |buf| ==> buf[n] == '\0'
    ensures Strlen(buf) == n
  {
    if n > 0 {
      assert buf[..n][0] == buf[0];
      assert buf[1..][..n - 1] == buf[..n][1..];
      StrlenIs(buf[1..], n - 1);
    }
  }

  /** A text written over the start of an all-NUL buffer. */
  lemma PaddedText(text: string, size: nat)
    requires |text| < size && '\0' !in text
    ensures Padded(text + Zeros(size - |text|))
    ensures CStr(text + Zeros(size - |text|)) == text
  {
    var buf := text + Zeros(size - |text|);
    assert buf[..|text|] == text;
    StrlenIs(buf, |text|);
  }

  lemma ZerosEmpty(n: nat)
    requires n > 0
    ensures Padded(Zeros(n)) && CStr(Zeros(n)) == []
  {
    assert [] + Zeros(n) == Zeros(n);
    PaddedText([], n);
  }
}

/** The one-slot outbox sbuf, filled by the sensor thread and the comm thread and
    emptied by the comm thread, each critical section under send_lock. */
module Outbox {
  import opened CTypes
  import opened CStrings

  const SIZE: nat := 100

  /** The critical section of stlr_comm_send; None when the slot is taken. */
  function Deposit(sbuf: seq<char>, message: string): Option<seq<char>>
    requires |message| <= |sbuf|
  {
    if Strlen(sbuf) != 0 then None else Some(message + sbuf[|message|..])
  }

  /** stlr_comm_send as one step. */
  function Send(sbuf: seq<char>, connected: bool, message: string): Option<seq<char>> {
    if |message| > |sbuf| || !connected then None else Deposit(sbuf, message)
  }

  /** The messages the outbox is for. */
  predicate Good(message: string) {
    0 < |message| < SIZE && '\0' !in message
  }

  /** A message left alone in an empty outbox comes out again exactly when it is good:
      the length test admits one more length, an empty message and embedded NULs. */
  lemma OnlyGoodMessagesSurvive(message: string)
    requires |message| <= 100
    ensures Deposit(Zeros(100), message).Some?
    ensures var sbuf := Deposit(Zeros(100), message).value;
      (Terminated(sbuf) && CStr(sbuf) == message && message != []) <==> 1 <= |message| <= 99 && '\0' !in message
    ensures Good(message) <==> 1 <= |message| <= 99 && '\0' !in message
  {
    ZerosEmpty(SIZE);
    var sbuf := message + Zeros(SIZE)[|message|..];
    assert Zeros(SIZE)[|message|..] == Zeros(SIZE - |message|);
    if Good(message) {
      PaddedText(message, SIZE);
    }
  }

  // ---- The step machine ----

  datatype Sender = SensorThread | CommThread

  /** A message and the client connection it was accepted for, or written to. */
  datatype Delivery = Delivery(message: string, link: nat)

  /** The buffer, the connection, the messages whose senders have passed the
      connection test but not yet locked send_lock, and the history. */
  datatype Box = Box(
    sbuf: seq<char>, connected: bool, link: nat,
    checked: map<Sender, string>,
    accepted: seq<Delivery>, written: seq<Delivery>)

  datatype Step =
    | Check(sender: Sender, message: string)
    | Commit(sender: Sender)
    | Flush
    | Disconnect
    | Connect

  function Init(): Box {
    Box(Zeros(SIZE), false, 0, map[], [], [])
  }

  /** Sending, flushing and accepting clients are all done by the comm thread, one at a time. */
  predicate Enabled(b: Box, step: Step) {
    match step
    case Check(sender, _) => sender !in b.checked
    case Commit(sender) => sender in b.checked && |b.checked[sender]| <= |b.sbuf|
    case Flush | Disconnect | Connect => CommThread !in b.checked
  }

  function Next(b: Box, step: Step): Box
    requires Enabled(b, step)
  {
    match step
    case Check(sender, message) =>
      if |message| > |b.sbuf| || !b.connected then b else b.(checked := b.checked[sender := message])
    case Commit(sender) =>
      var message, c := b.checked[sender], b.(checked := b.checked - {sender});
      (match Deposit(b.sbuf, message)
       case None => c
       case Some(sbuf) => c.(sbuf := sbuf, accepted := b.accepted + [Delivery(message, b.link)]))
    case Flush =>
      if Strlen(b.sbuf) == 0 then b
      else b.(sbuf := Zeros(|b.sbuf|), written := b.written + [Delivery(CStr(b.sbuf), b.link)])
    case Disconnect => b.(connected := false)
    case Connect => b.(connected := true, link := b.link + 1)
  }

  predicate Valid(b: Box, steps: seq<Step>)
    decreases |steps|
  {
    steps == [] || (Enabled(b, steps[0]) && Valid(Next(b, steps[0]), steps[1..]))
  }

  function Final(b: Box, steps: seq<Step>): Box
    requires Valid(b, steps)
    decreases |steps|
  {
    if steps == [] then b else Final(Next(b, steps[0]), steps[1..])
  }

  predicate GoodMessages(steps: seq<Step>) {
    forall i :: 0 <= i < |steps| && steps[i].Check? ==> Good(steps[i].message)
  }

  /** The message waiting in the buffer, if any. */
  function Pending(b: Box): seq<string> {
    if Strlen(b.sbuf) == 0 then [] else [CStr(b.sbuf)]
  }

  function Messages(s: seq<Delivery>): seq<string> {
    seq(|s|, i requires 0 <= i < |s| => s[i].message)
  }

  /** No delivery is written to an older connection than it was accepted for. */
  ghost predicate NotEarlier(b: Box) {
    && |b.written| <= |b.accepted|
    && (forall i :: 0 <= i < |b.written| ==> b.accepted[i].link <= b.written[i].link)
    && (forall i :: 0 <= i < |b.accepted| ==> b.accepted[i].link <= b.link)
  }

  ghost predicate Inv(b: Box) {
    && |b.sbuf| == SIZE && Padded(b.sbuf)
    && (forall s :: s in b.checked ==> Good(b.checked[s]))
    && Messages(b.accepted) == Messages(b.written) + Pending(b)
    && NotEarlier(b)
  }

  lemma MessagesAppend(s: seq<Delivery>, d: Delivery)
    ensures Messages(s + [d]) == Messages(s) + [d.message]
  {
  }

  lemma CommitKeepsInv(b: Box, sender: Sender)
    requires Inv(b) && Enabled(b, Commit(sender))
    ensures Inv(Next(b, Commit(sender)))
  {
    var message := b.checked[sender];
    if Strlen(b.sbuf) == 0 {
      assert b.sbuf == Zeros(SIZE);
      assert Zeros(SIZE)[|message|..] == Zeros(SIZE - |message|);
      PaddedText(message, SIZE);
      hide Padded;
      MessagesAppend(b.accepted, Delivery(message, b.link));
      assert |Messages(b.accepted)| == |Messages(b.written)|;
    }
  }

  lemma FlushKeepsInv(b: Box)
    requires Inv(b) && Enabled(b, Flush)
    ensures Inv(Next(b, Flush))
  {
    hide Padded;
    if Strlen(b.sbuf) != 0 {
      ZerosEmpty(SIZE);
      MessagesAppend(b.written, Delivery(CStr(b.sbuf), b.link));
      assert |Messages(b.accepted)| == |Messages(b.written)| + 1;
    }
  }

  lemma StepKeepsInv(b: Box, step: Step)
    requires Inv(b) && Enabled(b, step)
    requires step.Check? ==> Good(step.message)
    ensures Inv(Next(b, step))
  {
    hide Padded, Strlen, Good;
    match step
    case Commit(sender) => CommitKeepsInv(b, sender);
    case Flush => FlushKeepsInv(b);
    case _ =>
  }

  lemma {:induction false} RunKeepsInv(b: Box, steps: seq<Step>)
    requires Inv(b) && Valid(b, steps) && GoodMessages(steps)
    ensures Inv(Final(b, steps))
    decreases |steps|
  {
    if steps != [] {
      StepKeepsInv(b, steps[0]);
      assert GoodMessages(steps[1..]);
      RunKeepsInv(Next(b, steps[0]), steps[1..]);
    }
  }

  /** The outbox refines a one-place FIFO: in every interleaving of the two senders,
      the flushes and the client changes, the accepted messages are the written ones,
      whole and in order, followed by the pending one if there is one. */
  lemma OutboxIsFifo(steps: seq<Step>)
    requires Valid(Init(), steps) && GoodMessages(steps)
    ensures var b := Final(Init(), steps);
      && Messages(b.accepted) == Messages(b.written) + Pending(b)
      && Padded(b.sbuf) && |b.sbuf| == SIZE
      && NotEarlier(b)
  {
    ZerosEmpty(SIZE);
    assert Messages([]) == [];
    RunKeepsInv(Init(), steps);
  }

  // ---- Without a client ----

  predicate NoConnect(steps: seq<Step>) {
    forall i :: 0 <= i < |steps| ==> !steps[i].Connect?
  }

  /** What the two tests before the lock leave behind, whatever the messages: the lengths fit,
      and the comm thread is past them only while its client is there. */
  ghost predicate Tested(b: Box) {
    && |b.sbuf| == SIZE
    && (forall s :: s in b.checked ==> |b.checked[s]| <= SIZE)
    && (CommThread in b.checked ==> b.connected)
  }

  lemma {:induction false} RunKeepsTested(b: Box, steps: seq<Step>)
    requires Tested(b) && Valid(b, steps)
    ensures Tested(Final(b, steps))
    decreases |steps|
  {
    if steps != [] {
      hide Strlen;
      RunKeepsTested(Next(b, steps[0]), steps[1..]);
    }
  }

  lemma ReachableIsTested(before: seq<Step>)
    requires Valid(Init(), before)
    ensures Tested(Final(Init(), before))
  {
    hide Next, Enabled;
    RunKeepsTested(Init(), before);
  }

  /** Once the connection is gone and no sender is past its test, the history of accepted
      messages stands still until the next client. */
  lemma {:induction false} NothingAcceptedWithoutClient(b: Box, steps: seq<Step>)
    requires Valid(b, steps) && !b.connected && b.checked == map[]
    requires NoConnect(steps)
    ensures Final(b, steps).accepted == b.accepted
    decreases |steps|
  {
    if steps != [] {
      assert NoConnect(steps[1..]);
      NothingAcceptedWithoutClient(Next(b, steps[0]), steps[1..]);
    }
  }

  /** In every reachable state a sensor thread past its test can still deposit its message
      after the client has left: a flush, if one is needed, and the deposit are possible. */
  lemma LateSenderDeposits(before: seq<Step>)
    requires Valid(Init(), before)
    requires var b := Final(Init(), before); !b.connected && SensorThread in b.checked
    ensures var b, steps := Final(Init(), before), [Flush, Commit(SensorThread)];
      && Valid(b, steps)
      && Final(b, steps).accepted == b.accepted + [Delivery(b.checked[SensorThread], b.link)]
  {
    ReachableIsTested(before);
    var b := Final(Init(), before);
    var flushed := Next(b, Flush);
    ZerosEmpty(SIZE);
    Unfold(flushed, Commit(SensorThread), []);
    Unfold(b, Flush, [Commit(SensorThread)]);
    assert [Flush, Commit(SensorThread)] == [Flush] + [Commit(SensorThread)];
  }

  /** Some run without a new client makes the history of accepted messages grow. */
  ghost predicate CanAcceptWithoutClient(b: Box) {
    exists steps :: Valid(b, steps) && NoConnect(steps) && b.accepted < Final(b, steps).accepted
  }

  /** Exactly when a message can be accepted with no client connected, in every reachable
      state: iff the sensor thread is past its connection test. */
  lemma AcceptedWithoutClient(before: seq<Step>)
    requires Valid(Init(), before) && !Final(Init(), before).connected
    ensures CanAcceptWithoutClient(Final(Init(), before)) <==> SensorThread in Final(Init(), before).checked
  {
    ReachableIsTested(before);
    var b := Final(Init(), before);
    if SensorThread in b.checked {
      LateSenderDeposits(before);
      var steps := [Flush, Commit(SensorThread)];
      assert NoConnect(steps) && b.accepted < Final(b, steps).accepted;
    } else {
      assert forall s :: s in b.checked ==> s == CommThread;
      assert b.checked == map[];
      forall steps | Valid(b, steps) && NoConnect(steps) ensures Final(b, steps).accepted == b.accepted {
        NothingAcceptedWithoutClient(b, steps);
      }
    }
  }

  /** Such a state arises: the client leaves between the sensor thread's test and its lock. */
  lemma SenderOutlivesClient(message: string)
    requires |message| <= SIZE
    ensures var steps := [Connect, Check(SensorThread, message), Disconnect];
      && Valid(Init(), steps)
      && !Final(Init(), steps).connected
      && Final(Init(), steps).checked == map[SensorThread := message]
  {
    var steps := [Connect, Check(SensorThread, message), Disconnect];
    ZerosEmpty(SIZE);
    var b1 := Next(Init(), Connect);
    var b2 := Next(b1, Check(SensorThread, message));
    Unfold(b2, Disconnect, []);
    Unfold(b1, Check(SensorThread, message), [Disconnect]);
    Unfold(Init(), Connect, steps[1..]);
    assert steps == [Connect] + steps[1..];
    assert steps[1..] == [steps[1]] + [Disconnect];
  }

  // ---- Which client gets a message ----

  /** Every message was written to the connection it was accepted for. */
  ghost predicate RightClients(b: Box) {
    |b.written| <= |b.accepted| && forall i :: 0 <= i < |b.written| ==> b.written[i].link == b.accepted[i].link
  }

  predicate NoFlush(steps: seq<Step>) {
    forall i :: 0 <= i < |steps| ==> !steps[i].Flush?
  }

  /** No client is accepted while a message waits, unless nothing is flushed from then on.
      An empty outbox at every Connect is enough. */
  predicate CleanConnects(b: Box, steps: seq<Step>)
    requires Valid(b, steps)
    decreases |steps|
  {
    if steps == [] then true
    else
      && (steps[0].Connect? && Pending(b) != [] ==> NoFlush(steps[1..]))
      && CleanConnects(Next(b, steps[0]), steps[1..])
  }

  /** The waiting message, if any, was accepted for the current connection. */
  ghost predicate PendingIsCurrent(b: Box) {
    Pending(b) != [] ==> b.accepted != [] && b.accepted[|b.accepted| - 1].link == b.link
  }

  lemma {:induction false} NoFlushIsClean(b: Box, steps: seq<Step>)
    requires Valid(b, steps) && NoFlush(steps)
    ensures CleanConnects(b, steps)
    ensures Final(b, steps).written == b.written && b.accepted <= Final(b, steps).accepted
    decreases |steps|
  {
    if steps != [] {
      assert NoFlush(steps[1..]);
      NoFlushIsClean(Next(b, steps[0]), steps[1..]);
    }
  }

  lemma HistoriesGrow(b: Box, step: Step)
    requires Enabled(b, step)
    ensures b.accepted <= Next(b, step).accepted && b.written <= Next(b, step).written
  {
  }

  /** Histories only grow, so a message at the wrong client stays there. */
  lemma {:induction false} WrongClientStays(b: Box, steps: seq<Step>)
    requires Inv(b) && Valid(b, steps) && GoodMessages(steps)
    requires !RightClients(b)
    ensures !RightClients(Final(b, steps))
    decreases |steps|
  {
    if steps != [] {
      hide Inv, Good, Next, Pending;
      StepKeepsInv(b, steps[0]);
      assert GoodMessages(steps[1..]);
      var c := Next(b, steps[0]);
      HistoriesGrow(b, steps[0]);
      PendingCounts(b);
      PendingCounts(c);
      WrongClientStays(c, steps[1..]);
    }
  }

  lemma StepKeepsStale(b: Box, step: Step)
    requires Inv(b) && Enabled(b, step) && (step.Check? ==> Good(step.message))
    requires RightClients(b) && Pending(b) != [] && !PendingIsCurrent(b)
    ensures var c := Next(b, step);
      if step.Flush? then !RightClients(c) else RightClients(c) && Pending(c) != [] && !PendingIsCurrent(c)
  {
    hide Inv, Good, Strlen, CStr;
    InvLinks(b);
    PendingCounts(b);
    if step.Flush? {
      assert Next(b, step).written[|b.written|] == Delivery(CStr(b.sbuf), b.link);
    }
  }

  lemma InvLinks(b: Box)
    requires Inv(b)
    ensures NotEarlier(b)
  {
  }

  /** A message left from an earlier connection: the clients stay right iff it is never flushed. */
  lemma {:induction false} StalePending(b: Box, steps: seq<Step>)
    requires Inv(b) && Valid(b, steps) && GoodMessages(steps)
    requires RightClients(b) && Pending(b) != [] && !PendingIsCurrent(b)
    ensures RightClients(Final(b, steps)) <==> NoFlush(steps)
    decreases |steps|
  {
    if steps != [] {
      hide Inv, Good, Next, RightClients, Pending, PendingIsCurrent;
      StepKeepsInv(b, steps[0]);
      StepKeepsStale(b, steps[0]);
      assert GoodMessages(steps[1..]);
      var c, rest := Next(b, steps[0]), steps[1..];
      if steps[0].Flush? {
        WrongClientStays(c, rest);
      } else {
        StalePending(c, rest);
        assert NoFlush(steps) <==> NoFlush(rest) by {
          assert steps == [steps[0]] + rest;
        }
      }
    }
  }

  lemma PendingCounts(b: Box)
    requires Inv(b)
    ensures |b.accepted| == |b.written| + |Pending(b)|
  {
    assert |Messages(b.accepted)| == |b.accepted| && |Messages(b.written)| == |b.written|;
  }

  /** Only a Connect over a waiting message makes it one from an earlier connection. */
  lemma StepKeepsCurrent(b: Box, step: Step)
    requires Inv(b) && Enabled(b, step) && (step.Check? ==> Good(step.message))
    requires RightClients(b) && PendingIsCurrent(b)
    ensures var c := Next(b, step);
      && RightClients(c)
      && (PendingIsCurrent(c) <==> !(step.Connect? && Pending(b) != []))
      && (step.Connect? && Pending(b) != [] ==> Pending(c) != [])
  {
    hide Inv, Good, Strlen, CStr;
    StepKeepsInv(b, step);
    PendingCounts(b);
    PendingCounts(Next(b, step));
  }

  lemma {:induction false} RightClientsFrom(b: Box, steps: seq<Step>)
    requires Inv(b) && Valid(b, steps) && GoodMessages(steps)
    requires RightClients(b) && PendingIsCurrent(b)
    ensures RightClients(Final(b, steps)) <==> CleanConnects(b, steps)
    decreases |steps|
  {
    if steps != [] {
      hide Inv, RightClients, PendingIsCurrent, Next, Pending;
      StepKeepsInv(b, steps[0]);
      StepKeepsCurrent(b, steps[0]);
      assert GoodMessages(steps[1..]);
      var c, rest := Next(b, steps[0]), steps[1..];
      if steps[0].Connect? && Pending(b) != [] {
        StalePending(c, rest);
        if NoFlush(rest) {
          NoFlushIsClean(c, rest);
        }
      } else {
        RightClientsFrom(c, rest);
      }
    }
  }

  /** Exactly when every message goes to the client it was accepted for: in every run, iff no
      client is accepted over a waiting message that is flushed later. */
  lemma MessagesReachTheirClients(steps: seq<Step>)
    requires Valid(Init(), steps) && GoodMessages(steps)
    ensures RightClients(Final(Init(), steps)) <==> CleanConnects(Init(), steps)
  {
    ZerosEmpty(SIZE);
    assert Messages([]) == [];
    RightClientsFrom(Init(), steps);
  }

  /** A client change does not empty the outbox: what was accepted for one client can
      be written to the next. */
  lemma NextClientGetsOldMessage(message: string)
    requires Good(message)
    ensures var steps := [Connect, Check(SensorThread, message), Commit(SensorThread), Disconnect, Connect, Flush];
      && Valid(Init(), steps)
      && Final(Init(), steps).accepted == [Delivery(message, 1)]
      && Final(Init(), steps).written == [Delivery(message, 2)]
  {
    var steps := [Connect, Check(SensorThread, message), Commit(SensorThread), Disconnect, Connect, Flush];
    ZerosEmpty(SIZE);
    assert Zeros(SIZE)[|message|..] == Zeros(SIZE - |message|);
    PaddedText(message, SIZE);
    var b1 := Next(Init(), Connect);
    var b2 := Next(b1, Check(SensorThread, message));
    var b3 := Next(b2, Commit(SensorThread));
    var b4 := Next(b3, Disconnect);
    var b5 := Next(b4, Connect);
    var b6 := Next(b5, Flush);
    Unfold(b5, Flush, []);
    Unfold(b4, Connect, [Flush]);
    Unfold(b3, Disconnect, [Connect, Flush]);
    Unfold(b2, Commit(SensorThread), [Disconnect, Connect, Flush]);
    Unfold(b1, Check(SensorThread, message), [Commit(SensorThread), Disconnect, Connect, Flush]);
    Unfold(Init(), Connect, steps[1..]);
    assert steps == [Connect] + steps[1..];
  }

  lemma Unfold(b: Box, step: Step, rest: seq<Step>)
    requires Enabled(b, step) && Valid(Next(b, step), rest)
    ensures Valid(b, [step] + rest)
    ensures Final(b, [step] + rest) == Final(Next(b, step), rest)
  {
    assert ([step] + rest)[1..] == rest;
  }

  lemma {:induction false} Append(b: Box, steps: seq<Step>, more: seq<Step>)
    requires Valid(b, steps) && Valid(Final(b, steps), more)
    ensures Valid(b, steps + more)
    ensures Final(b, steps + more) == Final(Final(b, steps), more)
    decreases |steps|
  {
    hide Next, Enabled;
    if steps == [] {
      assert steps + more == more;
    } else {
      Append(Next(b, steps[0]), steps[1..], more);
      assert steps + more == [steps[0]] + (steps[1..] + more);
      Unfold(b, steps[0], steps[1..] + more);
    }
  }
}
