/** The text that goes through a terminal: a log of what was sent to it and typed at
    it, kept apart from the device, and what the device has made of it. */
module TerminalTexts {
  import opened Words
  import opened Bits
  import opened Terminals

  /** When a command completed, and whether the device worked then. */
  datatype Ran = Ran(at: nat, worked: bool)

  /** A command the transmitter took, and how it ended. */
  datatype Job = Job(data: Word, at: nat, ran: Option<Ran>)

  /** The transmitter's commands; the characters typed, and those the guest was shown;
      and when the receiver took its last command, and how often it then found
      nothing. */
  datatype Log = Log(jobs: seq<Job>, typed: seq<Word>, received: seq<Word>, asked: nat, tries: nat)

  const EMPTY := Log([], [], [], 0, 0)

  predicate HasCompletion(code: nat) { code == 0 || code == 2 }

  /** The log after a store that finds the terminal as `t`. */
  function AfterStore(log: Log, t: Term, regnum: nat, data: Word, tod: nat): Log {
    if regnum == 3 && t.tranStatus != 3 && HasCompletion(data % 0x100) then
      log.(jobs := log.jobs + [Job(data, tod, None)])
    else if regnum == 1 && t.recvStatus != 3 && HasCompletion(data) then log.(asked := tod, tries := 0)
    else log
  }

  /** The log after a completion that makes `u` of the terminal `t`.  What the guest
      receives is the byte that the receiver's status then shows. */
  function AfterFinish(log: Log, t: Term, u: Term, tod: nat): Log {
    if DoRecv(t) then
      if u.recvStatus % 0x100 == 5 then log.(received := log.received + [u.recvStatus / 0x100 % 0x100])
      else log.(tries := log.tries + 1)
    else if log.jobs == [] then log
    else
      var k := |log.jobs| - 1;
      log.(jobs := log.jobs[k := log.jobs[k].(ran := Some(Ran(tod, t.working)))])
  }

  /** A line is typed. */
  function AfterTyping(log: Log, text: seq<Word>): Log {
    log.(typed := log.typed + text + [10])
  }

  /** The characters of the jobs that came to an end while the device worked. */
  function Printed(jobs: seq<Job>): seq<Word> {
    if jobs == [] then []
    else
      var k := |jobs| - 1;
      var j := jobs[k];
      Printed(jobs[..k]) +
      if j.ran.Some? && j.ran.value.worked && j.data % 0x100 == 2 then [j.data / 0x100 % 0x100] else []
  }

  function Bytes(text: seq<Word>): (r: seq<Word>)
    ensures |r| == |text| && forall i :: 0 <= i < |r| ==> r[i] == text[i] % 0x100
  {
    seq(|text|, i requires 0 <= i < |text| => text[i] % 0x100)
  }

  /** Time units a command takes. */
  function Units(code: nat): nat { if code == 0 then 400 else 80 }

  /** Only the last job may be under way, and it is while the transmitter is busy; every
      other one ended its time after it was taken. */
  ghost predicate JobsOk(t: Term, jobs: seq<Job>, rate: nat) {
    && (forall k :: 0 <= k < |jobs| ==> (jobs[k].ran.None? <==> k == |jobs| - 1 && t.tranStatus == 3))
    && (forall k :: 0 <= k < |jobs| && jobs[k].ran.Some? ==>
          jobs[k].ran.value.at == jobs[k].at + Units(jobs[k].data % 0x100) * rate)
    && (t.tranStatus == 3 ==>
          && jobs != [] && jobs[|jobs| - 1].data == t.tranCommand && HasCompletion(t.tranCommand % 0x100)
          && t.tranCTime == jobs[|jobs| - 1].at + Units(t.tranCommand % 0x100) * rate)
  }

  /** A receiver at work looks again every 80 time units until there is something. */
  ghost predicate AskingOk(t: Term, log: Log, rate: nat) {
    t.recvStatus == 3 ==>
      && HasCompletion(t.recvCommand)
      && t.recvCTime == log.asked + (if t.recvCommand == 0 then 400 * rate else (log.tries + 1) * (80 * rate))
  }

  /** Printed is what was sent, in order; received, and still to be received, is what
      was typed, in order. */
  ghost predicate TextOk(t: Term, log: Log, rate: nat) {
    && JobsOk(t, log.jobs, rate) && AskingOk(t, log, rate)
    && t.output == Printed(log.jobs)
    && Bytes(log.typed) == log.received + Bytes(t.input)
  }

  lemma PrintedPrefix(jobs: seq<Job>, j: Job)
    ensures Printed(jobs + [j]) ==
            Printed(jobs) +
            if j.ran.Some? && j.ran.value.worked && j.data % 0x100 == 2 then [j.data / 0x100 % 0x100] else []
  {
    assert (jobs + [j])[..|jobs|] == jobs;
  }

  lemma StoreKeepsText(t: Term, log: Log, regnum: nat, data: Word, tod: nat, rate: nat)
    requires TextOk(t, log, rate)
    ensures TextOk(WriteReg(t, regnum, data, tod, rate).term, AfterStore(log, t, regnum, data, tod), rate)
  {
    hide WriteReg, Printed, Bytes;
    StoreShows(t, regnum, data, tod, rate);
    PrintedPrefix(log.jobs, Job(data, tod, None));
  }

  lemma TypingKeepsText(t: Term, log: Log, text: seq<Word>, rate: nat)
    requires TextOk(t, log, rate)
    ensures TextOk(Typed(t, text), AfterTyping(log, text), rate)
  {
    hide Bytes, Printed;
    BytesJoin(log.typed, text + [10]);
    BytesJoin(t.input, text + [10]);
    assert log.typed + text + [10] == log.typed + (text + [10]);
    assert t.input + text + [10] == t.input + (text + [10]);
  }

  lemma BytesJoin(a: seq<Word>, b: seq<Word>)
    ensures Bytes(a + b) == Bytes(a) + Bytes(b)
  {
  }

  lemma FinishKeepsText(t: Term, log: Log, tod: nat, rate: nat)
    requires TextOk(t, log, rate)
    requires if DoRecv(t) then t.recvStatus == 3 && t.recvCTime == tod else t.tranStatus == 3 && t.tranCTime == tod
    ensures var u := Complete(t, tod, rate).term; TextOk(u, AfterFinish(log, t, u, tod), rate)
  {
    hide Complete;
    CompletionShows(t, tod, rate);
    if DoRecv(t) {
      ReceiveKeepsText(t, log, tod, rate);
    } else {
      TransmitKeepsText(t, log, tod, rate);
    }
  }

  lemma TransmitKeepsText(t: Term, log: Log, tod: nat, rate: nat)
    requires TextOk(t, log, rate) && !DoRecv(t) && t.tranStatus == 3 && t.tranCTime == tod
    ensures var u := Complete(t, tod, rate).term; TextOk(u, AfterFinish(log, t, u, tod), rate)
  {
    hide Complete, Printed, Bytes;
    CompletionShows(t, tod, rate);
    var k := |log.jobs| - 1;
    var last := log.jobs[k];
    var ran := last.(ran := Some(Ran(tod, t.working)));
    PrintedPrefix(log.jobs[..k], last);
    PrintedPrefix(log.jobs[..k], ran);
    assert log.jobs == log.jobs[..k] + [last];
    assert log.jobs[k := ran] == log.jobs[..k] + [ran];
  }

  lemma ReceiveKeepsText(t: Term, log: Log, tod: nat, rate: nat)
    requires TextOk(t, log, rate) && DoRecv(t) && t.recvStatus == 3 && t.recvCTime == tod
    ensures var u := Complete(t, tod, rate).term; TextOk(u, AfterFinish(log, t, u, tod), rate)
  {
    hide Complete, Printed, Bytes, JobsOk, AskingOk;
    ReceiveKeepsJobs(t, log, tod, rate);
    ReceiveKeepsAsking(t, log, tod, rate);
    ReceiveKeepsBytes(t, log, tod, rate);
  }

  lemma ReceiveKeepsJobs(t: Term, log: Log, tod: nat, rate: nat)
    requires JobsOk(t, log.jobs, rate) && AskingOk(t, log, rate) && DoRecv(t) && t.recvStatus == 3
    ensures var u := Complete(t, tod, rate).term;
            JobsOk(u, AfterFinish(log, t, u, tod).jobs, rate) && u.output == t.output
  {
    hide Complete, Units;
    CompletionShows(t, tod, rate);
  }

  /** The byte shown leaves the text still to be read, and no other does. */
  lemma ReceiveKeepsBytes(t: Term, log: Log, tod: nat, rate: nat)
    requires AskingOk(t, log, rate) && DoRecv(t) && t.recvStatus == 3
    requires Bytes(log.typed) == log.received + Bytes(t.input)
    ensures var u := Complete(t, tod, rate).term;
            var l := AfterFinish(log, t, u, tod); Bytes(l.typed) == l.received + Bytes(u.input)
  {
    hide Complete, Bytes;
    CompletionShows(t, tod, rate);
    var u := Complete(t, tod, rate).term;
    if t.recvCommand == 2 && t.input != [] && t.working {
      BytesFirst(t.input);
      var c := t.input[0] % 0x100;
      assert log.received + ([c] + Bytes(u.input)) == (log.received + [c]) + Bytes(u.input);
    } else {
      assert u.recvStatus % 0x100 != 5;
    }
  }

  lemma BytesFirst(text: seq<Word>)
    requires text != []
    ensures Bytes(text) == [text[0] % 0x100] + Bytes(text[1..])
  {
  }

  lemma ReceiveKeepsAsking(t: Term, log: Log, tod: nat, rate: nat)
    requires AskingOk(t, log, rate) && DoRecv(t) && t.recvStatus == 3 && t.recvCTime == tod
    ensures var u := Complete(t, tod, rate).term; AskingOk(u, AfterFinish(log, t, u, tod), rate)
  {
    hide Complete;
    CompletionShows(t, tod, rate);
    Distributes(log.tries + 1, 1, 80 * rate);
  }
}
