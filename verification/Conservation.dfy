/** What every step on one connection keeps. A connection is seen through one reference at a time: the part
    of each channel, map and goroutine that concerns it. A step changes the view of one reference only. */
module Conservation {
  import opened Wrappers
  import opened Matching
  import opened Protocol

  // ---------------------------------------------------------------- one reference's share of a connection

  datatype View = View(
    task: Option<Task>,
    queued: seq<string>,
    held: Option<string>,
    sent: map<string, SentRequest>,
    reader: Reader,
    followUp: Option<FollowUp>,
    releases: nat)

  /** The MTIs of the messages of r in a channel, in order. */
  function QueuedMtis(channel: seq<Request>, r: string): seq<string> {
    if channel == [] then []
    else (if channel[0].reference == r then [channel[0].mti] else []) + QueuedMtis(channel[1..], r)
  }

  /** The reference a match key was made for. */
  function KeyReference(key: string): string {
    if 5 <= |key| then key[5..] else ""
  }

  function SentOf(sent: map<string, SentRequest>, r: string): map<string, SentRequest> {
    map k | k in sent && KeyReference(k) == r :: sent[k]
  }

  function ViewOf(c: Conn, r: string): View {
    View(if r in c.tasks then Some(c.tasks[r]) else None,
         QueuedMtis(c.channel, r),
         if c.held.Some? && c.held.value.reference == r then Some(c.held.value.mti) else None,
         SentOf(c.sent, r),
         if c.reader != Idle && c.reader.reference == r then c.reader else Idle,
         if r in c.followUps then Some(c.followUps[r]) else None,
         multiset(c.released)[r])
  }

  // ---------------------------------------------------------------- the invariant of a view

  predicate Handing(stage: Stage) {
    stage == Recorded || stage == Full || stage == Withdrawn
  }

  /** How many places hold a live request: a worker about to hand it over, the channel, the write loop,
      sentTimes, or the read loop between taking it and queueing its statement. */
  function Places(v: View): nat {
    (if v.task.Some? && Handing(v.task.value.stage) then 1 else 0) + |v.queued| +
    (if v.held.Some? then 1 else 0) + |v.sent| +
    (if v.reader.Matched? || v.reader.Logged? || v.reader.Refused? then 1 else 0)
  }

  predicate Nowhere(v: View) {
    v.queued == [] && v.held.None? && v.sent == map[] && v.reader == Idle && v.releases == 0
  }

  /** Whatever is in the channel, the write loop, sentTimes or the read loop carries this MTI. */
  predicate Carries(v: View, r: string, mti: string) {
    && 4 <= |mti|
    && (v.queued != [] ==> v.queued[0] == mti)
    && (v.held.Some? ==> v.held.value == mti)
    && (v.sent != map[] ==> v.sent.Keys == {MatchKey(mti, r)} && v.sent[MatchKey(mti, r)].mti == mti)
    && (v.reader.Matched? ==> v.reader.sent.mti == mti)
  }

  /** After hand-over: the original is under way with its follow-up still registered; or the follow-up has
      been taken by the read loop; or it has been released, once, and is itself under way. */
  predicate HandedOk(v: View, r: string, t: Task) {
    && Places(v) <= 1
    && (v.reader.Updated? || v.reader.Releasing? ==> Places(v) == 0)
    && (|| (v.followUp == t.followUp && v.releases == 0 && Carries(v, r, MtiOf(t)) &&
            (v.reader == Idle || v.reader.Matched? || v.reader.Updated?))
        || (v.followUp.None? && t.followUp.Some? && v.releases == 0 &&
            (v.reader.Releasing? || v.reader.Logged? || v.reader.Refused? || (v.reader == Idle && Places(v) == 0)) &&
            (v.reader != Idle ==> v.reader.followUp == t.followUp.value))
        || (v.followUp.None? && t.followUp.Some? && v.releases == 1 && Carries(v, r, t.followUp.value.mti) &&
            (v.reader == Idle || v.reader.Pushed? || v.reader.Matched? || v.reader.Updated?)))
  }

  predicate TaskOk(name: string, r: string, t: Task) {
    && t.entry.reference == r && t.entry.connectionId == name
    && t.entry.mti.Some? && |t.entry.mti.value| == 4
    && (t.followUp.Some? ==> |t.followUp.value.mti| == 4 && t.followUp.value.testId == t.entry.testId)
  }

  predicate ViewOk(name: string, r: string, v: View) {
    if r == "" then
      v.task.None? && v.sent == map[] && v.reader == Idle && v.followUp.None? && v.releases == 0
    else if v.task.None? then Nowhere(v) && v.followUp.None?
    else
      var t := v.task.value;
      && TaskOk(name, r, t)
      && match t.stage
         case Drawn => Nowhere(v) && v.followUp.None?
         case Planned => Nowhere(v) && v.followUp.None?
         case Registered => Nowhere(v) && v.followUp == t.followUp
         case Recorded => Nowhere(v) && v.followUp == t.followUp
         case Full => Nowhere(v) && v.followUp == t.followUp
         case Withdrawn => Nowhere(v) && v.followUp.None?
         case Dropped => Nowhere(v) && v.followUp.None?
         case Rejected => Nowhere(v) && v.followUp == t.followUp
         case Abandoned => Nowhere(v) && v.followUp.None?
         case Handed => HandedOk(v, r, t)
  }

  ghost predicate ConnOk(name: string, c: Conn) {
    forall r :: ViewOk(name, r, ViewOf(c, r))
  }

  // ---------------------------------------------------------------- one step, one reference

  /** The reference a step is about. */
  function Acted(c: Conn, a: Step): string {
    if a.Draw? then a.task.entry.reference
    else if IsWorkerStep(a) then a.r
    else if a.PushRaw? then ""
    else if a.TakeNext? then (if c.channel == [] then "" else c.channel[0].reference)
    else if a.Stamp? then (if c.held.None? then "" else c.held.value.reference)
    else if a.Receive? then a.reference
    else if c.reader == Idle then "" else c.reader.reference
  }

  lemma {:induction false} QueuedAppend(channel: seq<Request>, q: Request, r: string)
    ensures QueuedMtis(channel + [q], r) ==
            QueuedMtis(channel, r) + (if q.reference == r then [q.mti] else [])
  {
    if channel == [] {
      assert QueuedMtis([q][1..], r) == [];
    } else {
      QueuedAppend(channel[1..], q, r);
      assert (channel + [q])[1..] == channel[1..] + [q];
    }
  }

  lemma KeyReferenceOf(mti: string, reference: string)
    requires 4 <= |mti|
    ensures KeyReference(MatchKey(mti, reference)) == reference
  {}

  lemma QueuedFrame(c: Conn, d: Conn, r: string)
    requires d.channel == c.channel || (c.channel != [] && d.channel == c.channel[1..]) ||
             (d.channel != [] && d.channel[..|d.channel| - 1] == c.channel)
    requires d.channel != c.channel && |d.channel| < |c.channel| ==> c.channel[0].reference != r
    requires |d.channel| > |c.channel| ==> d.channel[|c.channel|].reference != r
    ensures QueuedMtis(d.channel, r) == QueuedMtis(c.channel, r)
  {
    if |d.channel| > |c.channel| {
      assert d.channel == c.channel + [d.channel[|c.channel|]];
      QueuedAppend(c.channel, d.channel[|c.channel|], r);
    }
  }

  lemma WorkerUntouched(name: string, c: Conn, open: bool, a: Step, r: string)
    requires (a.Draw? || IsWorkerStep(a)) && Do(name, c, open, a).Some? && r != Acted(c, a)
    ensures ViewOf(Do(name, c, open, a).value.conn, r) == ViewOf(c, r)
  {
    hide QueuedMtis;
    hide SentOf;
    hide MatchKey;
    QueuedFrame(c, Do(name, c, open, a).value.conn, r);
  }

  lemma WriterUntouched(c: Conn, a: Step, r: string)
    requires a.PushRaw? || a.TakeNext? || a.Stamp?
    requires DoWriter(c, a).Some? && r != Acted(c, a)
    ensures ViewOf(DoWriter(c, a).value.conn, r) == ViewOf(c, r)
  {
    hide QueuedMtis;
    var d := DoWriter(c, a).value.conn;
    QueuedFrame(c, d, r);
    if a.Stamp? && 4 <= |c.held.value.mti| {
      KeyReferenceOf(c.held.value.mti, c.held.value.reference);
    }
    hide MatchKey;
    hide KeyReference;
    assert SentOf(d.sent, r) == SentOf(c.sent, r);
  }

  lemma ReaderEffect(name: string, c: Conn, open: bool, a: Step)
    requires IsReaderStep(a) && !a.Receive? && !a.PushFollowUp? && DoReader(name, c, open, a).Some?
    ensures var d := DoReader(name, c, open, a).value.conn;
            && d == c.(followUps := d.followUps, reader := d.reader) && c.reader != Idle
            && (d.followUps == c.followUps || d.followUps == c.followUps - {c.reader.reference})
            && (d.reader != Idle ==> d.reader.reference == c.reader.reference)
  {}

  lemma ReaderUntouched(name: string, c: Conn, open: bool, a: Step, r: string)
    requires IsReaderStep(a) && !a.Receive? && !a.PushFollowUp?
    requires DoReader(name, c, open, a).Some? && r != Acted(c, a)
    ensures ViewOf(DoReader(name, c, open, a).value.conn, r) == ViewOf(c, r)
  {
    ReaderEffect(name, c, open, a);
    hide DoReader;
    hide QueuedMtis;
    hide SentOf;
  }

  lemma PushFollowUpUntouched(name: string, c: Conn, open: bool, a: Step, r: string)
    requires a.PushFollowUp? && DoReader(name, c, open, a).Some? && r != Acted(c, a)
    ensures ViewOf(DoReader(name, c, open, a).value.conn, r) == ViewOf(c, r)
  {
    hide QueuedMtis;
    hide MatchKey;
    hide SentOf;
    var rd := c.reader;
    if |c.channel| < CHANNEL_SIZE {
      QueuedAppend(c.channel, Request(rd.reference, rd.followUp.mti, rd.followUp.raw), r);
      CountSnoc(c.released, rd.reference, r);
    }
  }

  lemma ReceiveUntouched(name: string, c: Conn, open: bool, a: Step, r: string)
    requires a.Receive? && DoReader(name, c, open, a).Some? && r != a.reference
    ensures ViewOf(DoReader(name, c, open, a).value.conn, r) == ViewOf(c, r)
  {
    hide QueuedMtis;
    KeyReferenceOf(a.mti, a.reference);
    hide MatchKey;
    hide KeyReference;
    assert SentOf(DoReader(name, c, open, a).value.conn.sent, r) == SentOf(c.sent, r);
    hide SentOf;
  }

  /** A step leaves the view of every other reference as it was. */
  lemma OthersUntouched(name: string, c: Conn, open: bool, a: Step, r: string)
    requires Do(name, c, open, a).Some? && r != Acted(c, a)
    ensures ViewOf(Do(name, c, open, a).value.conn, r) == ViewOf(c, r)
  {
    hide DoWorker;
    hide DoWriter;
    hide DoReader;
    hide ViewOf;
    if a.Draw? || IsWorkerStep(a) {
      WorkerUntouched(name, c, open, a, r);
    } else if a.Receive? {
      ReceiveUntouched(name, c, open, a, r);
    } else if a.PushFollowUp? {
      PushFollowUpUntouched(name, c, open, a, r);
    } else if IsReaderStep(a) {
      ReaderUntouched(name, c, open, a, r);
    } else {
      WriterUntouched(c, a, r);
    }
  }

  // ---------------------------------------------------------------- the reference a step is about

  function AtStage(v: View, stage: Stage): View
    requires v.task.Some?
  {
    v.(task := Some(v.task.value.(stage := stage)))
  }

  /** A step as the reference it is about sees it, or none when it is not enabled. */
  function After(open: bool, full: bool, r: string, v: View, a: Step): Option<View> {
    if a.Draw? then (if v.task.Some? then None else Some(v.(task := Some(a.task))))
    else if IsWorkerStep(a) then (if v.task.Some? then AfterWorker(open, full, v, a) else None)
    else if IsReaderStep(a) then AfterReader(open, full, r, v, a)
    else AfterWriter(r, v, a)
  }

  function AfterWorker(open: bool, full: bool, v: View, a: Step): Option<View>
    requires IsWorkerStep(a) && v.task.Some?
  {
    var t := v.task.value;
    match a
    case Schedule(_, _) => if t.stage == Drawn && t.followUp.Some? then Some(AtStage(v, Planned)) else None
    case Register(_) =>
      if t.stage == Planned then Some(AtStage(v, Registered).(followUp := t.followUp)) else None
    case Record(_) =>
      if t.stage == Registered || (t.stage == Drawn && t.followUp.None?) then
        Some(AtStage(v, if open then Recorded else Rejected))
      else None
    case Abandon(_) =>
      if t.stage == Rejected then Some(AtStage(v, Abandoned).(followUp := None)) else None
    case Push(_) =>
      if t.stage != Recorded then None
      else if full then Some(AtStage(v, Full))
      else Some(AtStage(v, Handed).(queued := v.queued + [MtiOf(t)]))
    case Withdraw(_) => if t.stage == Full then Some(AtStage(v, Withdrawn).(followUp := None)) else None
    case Erase(_) => if t.stage == Withdrawn then Some(AtStage(v, Dropped)) else None
  }

  function AfterWriter(r: string, v: View, a: Step): Option<View> {
    if a.PushRaw? then Some(v.(queued := v.queued + [""]))
    else if a.TakeNext? then
      if v.queued == [] then None else Some(v.(queued := v.queued[1..], held := Some(v.queued[0])))
    else if v.held.None? then None
    else if r == "" || |v.held.value| < 4 || !a.Stamp? then Some(v.(held := None))
    else
      Some(v.(held := None, sent := v.sent[MatchKey(v.held.value, r) := SentRequest(v.held.value, a.now)]))
  }

  function AfterReader(open: bool, full: bool, r: string, v: View, a: Step): Option<View>
    requires IsReaderStep(a)
  {
    var rd := v.reader;
    match a
    case Receive(mti, _, code, auth, now) =>
      if |mti| != 4 || MatchKey(mti, r) !in v.sent then Some(v)
      else if rd != Idle then None
      else
        var key := MatchKey(mti, r);
        Some(v.(sent := v.sent - {key}, reader := Matched(r, v.sent[key], now, code, auth)))
    case Update => if rd.Matched? then Some(v.(reader := Updated(r))) else None
    case Release(now) =>
      if !rd.Updated? then None
      else if v.followUp.None? then Some(v.(reader := Idle))
      else Some(v.(followUp := None, reader := Releasing(r, v.followUp.value, now)))
    case RecordFollowUp =>
      if !rd.Releasing? then None
      else Some(v.(reader := if open then Logged(r, rd.followUp, rd.now) else Idle))
    case PushFollowUp =>
      if !rd.Logged? then None
      else if full then Some(v.(reader := Refused(r, rd.followUp)))
      else Some(v.(queued := v.queued + [rd.followUp.mti], reader := Pushed(r, rd.now),
                   releases := v.releases + 1))
    case MarkSent => if rd.Pushed? then Some(v.(reader := Idle)) else None
    case EraseFollowUp => if rd.Refused? then Some(v.(reader := Idle)) else None
  }

  predicate IsFull(c: Conn) {
    |c.channel| >= CHANNEL_SIZE
  }

  /** The view of the acted reference follows the view-level step. */
  ghost predicate Follows(name: string, c: Conn, open: bool, a: Step)
    requires Do(name, c, open, a).Some?
  {
    After(open, IsFull(c), Acted(c, a), ViewOf(c, Acted(c, a)), a) ==
    Some(ViewOf(Do(name, c, open, a).value.conn, Acted(c, a)))
  }

  lemma DrawFollows(name: string, c: Conn, open: bool, a: Step)
    requires a.Draw? && Do(name, c, open, a).Some?
    ensures Follows(name, c, open, a)
  {
    hide QueuedMtis;
    hide SentOf;
    hide AfterWorker;
    hide AfterReader;
    hide AfterWriter;
  }

  /** A worker's step other than the push changes its task and at most removes or registers its follow-up. */
  lemma WorkerEffect(name: string, c: Conn, open: bool, a: Step)
    requires IsWorkerStep(a) && !a.Push? && Do(name, c, open, a).Some?
    ensures var d := Do(name, c, open, a).value.conn;
            && a.r in c.tasks && a.r in d.tasks
            && d == c.(tasks := c.tasks[a.r := d.tasks[a.r]], followUps := d.followUps)
            && AfterWorker(open, IsFull(c), ViewOf(c, a.r), a) ==
               Some(ViewOf(c, a.r).(task := Some(d.tasks[a.r]),
                                    followUp := if a.r in d.followUps then Some(d.followUps[a.r]) else None))
  {
    hide QueuedMtis;
    hide SentOf;
    hide Handing;
    hide DoReader;
    hide DoWriter;
  }

  lemma WorkerFollows(name: string, c: Conn, open: bool, a: Step)
    requires IsWorkerStep(a) && !a.Push? && Do(name, c, open, a).Some?
    ensures Follows(name, c, open, a)
  {
    WorkerEffect(name, c, open, a);
    hide Do;
    hide AfterWorker;
    hide QueuedMtis;
    hide SentOf;
  }

  lemma PushFollows(name: string, c: Conn, open: bool, a: Step)
    requires a.Push? && Do(name, c, open, a).Some?
    ensures Follows(name, c, open, a)
  {
    hide QueuedMtis;
    hide SentOf;
    hide MatchKey;
    QueuedAppend(c.channel, Request(a.r, MtiOf(c.tasks[a.r]), c.tasks[a.r].entry.requestMessage), a.r);
  }

  lemma TakeNextFollows(name: string, c: Conn, open: bool, a: Step)
    requires a.TakeNext? && Do(name, c, open, a).Some?
    ensures Follows(name, c, open, a)
  {
    hide SentOf;
    hide MatchKey;
  }

  lemma PushRawFollows(name: string, c: Conn, open: bool, a: Step)
    requires a.PushRaw? && Do(name, c, open, a).Some?
    ensures Follows(name, c, open, a)
  {
    hide QueuedMtis;
    hide SentOf;
    hide MatchKey;
    QueuedAppend(c.channel, Request("", "", a.raw), "");
  }

  lemma StampFollows(name: string, c: Conn, open: bool, a: Step)
    requires a.Stamp? && Do(name, c, open, a).Some?
    ensures Follows(name, c, open, a)
  {
    hide QueuedMtis;
    hide SentOf;
    var q := c.held.value;
    var d := Do(name, c, open, a).value.conn;
    if q.reference == "" || |q.mti| < 4 {
      hide MatchKey;
      assert d == c.(held := None);
    } else {
      var key := MatchKey(q.mti, q.reference);
      KeyReferenceOf(q.mti, q.reference);
      hide MatchKey;
      SentAdded(c.sent, key, SentRequest(q.mti, a.now), q.reference);
      hide KeyReference;
      assert d == c.(held := None, sent := c.sent[key := SentRequest(q.mti, a.now)]);
      hide Do;
    }
  }

  lemma SentAdded(sent: map<string, SentRequest>, key: string, at: SentRequest, r: string)
    requires KeyReference(key) == r
    ensures SentOf(sent[key := at], r) == SentOf(sent, r)[key := at]
  {
    hide KeyReference;
  }

  lemma SentRemoved(sent: map<string, SentRequest>, key: string, r: string)
    requires KeyReference(key) == r
    ensures SentOf(sent - {key}, r) == SentOf(sent, r) - {key}
    ensures key in SentOf(sent, r) <==> key in sent
    ensures key in sent ==> SentOf(sent, r)[key] == sent[key]
  {
    hide KeyReference;
  }

  lemma ReceiveFollows(name: string, c: Conn, open: bool, a: Step)
    requires a.Receive? && Do(name, c, open, a).Some?
    ensures Follows(name, c, open, a)
  {
    KeyReferenceOf(a.mti, a.reference);
    hide QueuedMtis;
    hide SentOf;
    hide KeyReference;
    hide MatchKey;
    SentRemoved(c.sent, MatchKey(a.mti, a.reference), a.reference);
  }

  lemma ReaderSeen(name: string, c: Conn, open: bool, a: Step)
    requires IsReaderStep(a) && !a.Receive? && !a.PushFollowUp? && DoReader(name, c, open, a).Some?
    ensures var d := DoReader(name, c, open, a).value.conn;
            var r := c.reader.reference;
            c.reader != Idle &&
            AfterReader(open, IsFull(c), r, ViewOf(c, r), a) ==
            Some(ViewOf(c, r).(reader := d.reader,
                               followUp := if r in d.followUps then Some(d.followUps[r]) else None))
  {
    hide QueuedMtis;
    hide SentOf;
  }

  lemma ReaderView(c: Conn, d: Conn, r: string)
    requires d == c.(followUps := d.followUps, reader := d.reader)
    requires d.reader != Idle ==> d.reader.reference == r
    ensures ViewOf(d, r) ==
            ViewOf(c, r).(reader := d.reader, followUp := if r in d.followUps then Some(d.followUps[r]) else None)
  {
    hide QueuedMtis;
    hide SentOf;
  }

  lemma ReaderFollows(name: string, c: Conn, open: bool, a: Step)
    requires IsReaderStep(a) && !a.Receive? && !a.PushFollowUp? && Do(name, c, open, a).Some?
    ensures Follows(name, c, open, a)
  {
    hide ViewOf;
    hide DoReader;
    hide DoWorker;
    hide DoWriter;
    hide AfterReader;
    hide AfterWorker;
    hide AfterWriter;
    ReaderEffect(name, c, open, a);
    ReaderSeen(name, c, open, a);
    ReaderView(c, DoReader(name, c, open, a).value.conn, c.reader.reference);
  }

  lemma PushFollowUpEffect(name: string, c: Conn, open: bool, a: Step)
    requires a.PushFollowUp? && Do(name, c, open, a).Some?
    ensures c.reader.Logged?
    ensures var rd := c.reader;
            Do(name, c, open, a).value.conn ==
            if IsFull(c) then c.(reader := Refused(rd.reference, rd.followUp))
            else c.(channel := c.channel + [Request(rd.reference, rd.followUp.mti, rd.followUp.raw)],
                    reader := Pushed(rd.reference, rd.now), released := c.released + [rd.reference])
  {}

  lemma PushFollowUpFollows(name: string, c: Conn, open: bool, a: Step)
    requires a.PushFollowUp? && Do(name, c, open, a).Some?
    ensures Follows(name, c, open, a)
  {
    hide QueuedMtis;
    hide SentOf;
    hide MatchKey;
    hide After;
    PushFollowUpEffect(name, c, open, a);
    hide Do;
    var rd := c.reader;
    var r := rd.reference;
    var v := ViewOf(c, r);
    QueuedAppend(c.channel, Request(r, rd.followUp.mti, rd.followUp.raw), r);
    CountSnoc(c.released, r, r);
    FollowUpSeen(open, IsFull(c), r, v, a);
  }

  lemma FollowUpSeen(open: bool, full: bool, r: string, v: View, a: Step)
    requires a.PushFollowUp? && v.reader.Logged?
    ensures After(open, full, r, v, a) ==
            Some(if full then v.(reader := Refused(r, v.reader.followUp))
                 else v.(queued := v.queued + [v.reader.followUp.mti],
                         reader := Pushed(r, v.reader.now), releases := v.releases + 1))
  {}

  lemma CountSnoc(s: seq<string>, x: string, r: string)
    ensures multiset(s + [x])[r] == multiset(s)[r] + (if x == r then 1 else 0)
  {}

  lemma StepFollows(name: string, c: Conn, open: bool, a: Step)
    requires Do(name, c, open, a).Some?
    ensures Follows(name, c, open, a)
  {
    hide Follows;
    if a.Push? {
      PushFollows(name, c, open, a);
    } else if a.Draw? {
      DrawFollows(name, c, open, a);
    } else if IsWorkerStep(a) {
      WorkerFollows(name, c, open, a);
    } else if a.Receive? {
      ReceiveFollows(name, c, open, a);
    } else if a.PushFollowUp? {
      PushFollowUpFollows(name, c, open, a);
    } else if IsReaderStep(a) {
      ReaderFollows(name, c, open, a);
    } else if a.TakeNext? {
      TakeNextFollows(name, c, open, a);
    } else if a.PushRaw? {
      PushRawFollows(name, c, open, a);
    } else {
      StampFollows(name, c, open, a);
    }
  }

  // ---------------------------------------------------------------- view-level steps keep the invariant

  lemma WorkerStepOk(name: string, open: bool, full: bool, r: string, v: View, a: Step)
    requires IsWorkerStep(a) && v.task.Some? && AfterWorker(open, full, v, a).Some? && ViewOk(name, r, v)
    ensures ViewOk(name, r, AfterWorker(open, full, v, a).value)
  {
    hide MatchKey;
  }

  lemma WriterStepOk(name: string, r: string, v: View, a: Step)
    requires a.PushRaw? || a.TakeNext? || a.Stamp?
    requires AfterWriter(r, v, a).Some? && ViewOk(name, r, v) && (a.PushRaw? ==> r == "")
    ensures ViewOk(name, r, AfterWriter(r, v, a).value)
  {
    hide MatchKey;
  }

  lemma TakenOut(m: map<string, SentRequest>, key: string)
    requires key in m
    ensures |m - {key}| == |m| - 1 && (m.Keys == {key} ==> m - {key} == map[])
  {
    assert (m - {key}).Keys == m.Keys - {key};
  }

  lemma ReceiveOk(name: string, open: bool, full: bool, r: string, v: View, a: Step)
    requires a.Receive? && AfterReader(open, full, r, v, a).Some? && ViewOk(name, r, v)
    ensures ViewOk(name, r, AfterReader(open, full, r, v, a).value)
  {
    if |a.mti| == 4 && MatchKey(a.mti, r) in v.sent {
      TakenOut(v.sent, MatchKey(a.mti, r));
    }
    hide MatchKey;
  }

  lemma ReaderStepOk(name: string, open: bool, full: bool, r: string, v: View, a: Step)
    requires IsReaderStep(a) && !a.Receive?
    requires AfterReader(open, full, r, v, a).Some? && ViewOk(name, r, v)
    ensures ViewOk(name, r, AfterReader(open, full, r, v, a).value)
  {
    hide MatchKey;
  }

  lemma ViewStepOk(name: string, open: bool, full: bool, r: string, v: View, a: Step)
    requires After(open, full, r, v, a).Some? && ViewOk(name, r, v)
    requires a.Draw? ==> NewTask(name, a.task) && r == a.task.entry.reference
    requires a.PushRaw? ==> r == ""
    ensures ViewOk(name, r, After(open, full, r, v, a).value)
  {
    hide AfterWorker;
    hide AfterWriter;
    hide AfterReader;
    if a.Draw? {
    } else if IsWorkerStep(a) {
      WorkerStepOk(name, open, full, r, v, a);
    } else if a.Receive? {
      ReceiveOk(name, open, full, r, v, a);
    } else if IsReaderStep(a) {
      ReaderStepOk(name, open, full, r, v, a);
    } else {
      WriterStepOk(name, r, v, a);
    }
  }

  /** Every step of a connection keeps the invariant of every reference on it. */
  lemma StepKeepsConn(name: string, c: Conn, open: bool, a: Step)
    requires Do(name, c, open, a).Some? && ConnOk(name, c)
    ensures ConnOk(name, Do(name, c, open, a).value.conn)
  {
    var d := Do(name, c, open, a).value.conn;
    var acted := Acted(c, a);
    StepFollows(name, c, open, a);
    hide After;
    hide ViewOf;
    hide ViewOk;
    forall r ensures ViewOk(name, r, ViewOf(d, r)) {
      assert ViewOk(name, r, ViewOf(c, r));
      if r == acted {
        ViewStepOk(name, open, IsFull(c), r, ViewOf(c, r), a);
      } else {
        OthersUntouched(name, c, open, a, r);
      }
    }
  }
}
