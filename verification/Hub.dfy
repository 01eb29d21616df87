/** The hub: every run's events to every connected browser, and to those that connect later
    (internal/web/hub.go). Its methods run one at a time, under its lock. */
module Hub {
  import opened HubHistory

  const CLIENT_BUFFER := 512

  /** One connection's queue. Of everything the hub has said, it was put what came from since up to told; age and
      given say when it connected and what of each run it was handed then. */
  class Client {
    var queued: seq<string>
    var open: bool
    ghost const since: nat
    ghost const age: nat
    ghost const given: map<string, seq<Record>>
    ghost const handout: Handout
    ghost var told: nat
    ghost var closes: nat

    constructor (ghost since: nat, ghost age: nat, ghost given: map<string, seq<Record>>, ghost handout: Handout)
      ensures queued == [] && open && this.since == told == since && closes == 0
      ensures this.age == age && this.given == given && this.handout == handout
    {
      queued, open, this.since, told, closes := [], true, since, since, 0;
      this.age, this.given, this.handout := age, given, handout;
    }

    /** A send that does not wait: false when the queue is full. */
    method Offer(data: string) returns (ok: bool)
      requires open
      modifies this`queued, this`told
      ensures ok <==> |old(queued)| < CLIENT_BUFFER
      ensures queued == if ok then old(queued) + [data] else old(queued)
      ensures told == if ok then old(told) + 1 else old(told)
    {
      ok := |queued| < CLIENT_BUFFER;
      if ok { queued, told := queued + [data], told + 1; }
    }

    /** The write pump takes the next message. */
    method Take() returns (data: string)
      requires queued != []
      modifies this`queued
      ensures old(queued) == [data] + queued
    {
      data, queued := queued[0], queued[1..];
    }

    method CloseQueue()
      requires open
      modifies this`open, this`closes
      ensures !open && closes == old(closes) + 1
    {
      open, closes := false, closes + 1;
    }
  }

  /** One run's replay. progressAt is where each file put its last heartbeat. */
  datatype RunHistory = RunHistory(records: seq<Record>, progressAt: map<int, nat>)

  /** history is what log collapses to, and progressAt finds its heartbeats. */
  ghost predicate Replays(history: RunHistory, log: seq<Record>) {
    history.records == Collapse(log) &&
    forall f :: (f in history.progressAt <==> HasBeat(history.records, f)) &&
                (f in history.progressAt ==> history.progressAt[f] == FirstBeat(history.records, f, 0))
  }

  /** appendLocked on one history. */
  method Append(history: RunHistory, rec: Record, ghost log: seq<Record>) returns (longer: RunHistory)
    requires Replays(history, log)
    ensures Replays(longer, log + [rec])
  {
    AppendingInPlaceCollapses(log, rec);
    if rec.progress && rec.file in history.progressAt {
      var at := history.progressAt[rec.file];
      longer := history.(records := history.records[at := rec]);
      OverwritingKeepsTheBeats(history.records, at, rec);
    } else {
      longer := history.(records := history.records + [rec]);
      if rec.progress { longer := longer.(progressAt := longer.progressAt[rec.file := |history.records|]); }
      AppendingKeepsTheBeats(history.records, rec);
    }
  }

  lemma OverwritingKeepsTheBeats(records: seq<Record>, at: nat, rec: Record)
    requires rec.progress && at < |records| && Beat(records[at], rec.file)
    ensures forall f :: FirstBeat(records[at := rec], f, 0) == FirstBeat(records, f, 0)
  {
    var after := records[at := rec];
    forall f ensures FirstBeat(after, f, 0) == FirstBeat(records, f, 0) {
      assert forall k :: 0 <= k < |records| ==> Beat(after[k], f) == Beat(records[k], f);
    }
  }

  lemma AppendingKeepsTheBeats(records: seq<Record>, rec: Record)
    ensures forall f :: HasBeat(records, f) ==> FirstBeat(records + [rec], f, 0) == FirstBeat(records, f, 0)
    ensures forall f :: !HasBeat(records, f) && !Beat(rec, f) ==> !HasBeat(records + [rec], f)
    ensures forall f :: !HasBeat(records, f) && Beat(rec, f) ==> FirstBeat(records + [rec], f, 0) == |records|
  {
    var after := records + [rec];
    forall f
      ensures HasBeat(records, f) ==> FirstBeat(after, f, 0) == FirstBeat(records, f, 0)
      ensures !HasBeat(records, f) && !Beat(rec, f) ==> !HasBeat(after, f)
      ensures !HasBeat(records, f) && Beat(rec, f) ==> FirstBeat(after, f, 0) == |records| {
      assert forall k :: 0 <= k < |records| ==> after[k] == records[k];
      assert after[|records|] == rec;
    }
  }

  /** The strings from this place on are the messages of these records, one each and in order. */
  ghost predicate SpelledAt(backlog: seq<string>, at: nat, records: seq<Record>) {
    at + |records| <= |backlog| && forall k :: 0 <= k < |records| ==> backlog[at + k] == records[k].data
  }

  /** What a page is handed as it connects: the strings themselves, the runs in the order their parts come in, and
      where each part starts. */
  datatype Handout = Handout(backlog: seq<string>, order: seq<string>, starts: seq<nat>)

  /** The first n runs' parts, one after another from behind the head on, with nothing between or after them. */
  ghost predicate SpellsRuns(backlog: seq<string>, order: seq<string>, starts: seq<nat>, n: nat,
                             given: map<string, seq<Record>>) {
    n <= |order| && |starts| == n + 1 && starts[0] == 1 && starts[n] == |backlog| &&
    forall i :: 0 <= i < n ==>
      order[i] in given && starts[i + 1] == starts[i] + |given[order[i]]| &&
      SpelledAt(backlog, starts[i], given[order[i]])
  }

  /** The head, then for each run that is kept, in order, one string for each record of its history. */
  ghost predicate Spells(h: Handout, given: map<string, seq<Record>>) {
    SpellsRuns(h.backlog, h.order, h.starts, |h.order|, given) && forall id :: id in given <==> id in h.order
  }

  // ---- what a connection has been given ----

  /** What waits is the last of what was said up to told, in order and without a gap, and fits the buffer: so
      what the pump has taken is what was said from since up to there. */
  ghost predicate InOrder(said: seq<string>, since: nat, told: nat, queued: seq<string>) {
    |queued| <= CLIENT_BUFFER && since + |queued| <= told <= |said| && queued == said[told - |queued|..told]
  }

  /** Told everything. */
  ghost predicate Listens(c: Client, said: seq<string>)
    reads c
  {
    c.open && c.closes == 0 && c.told == |said| && InOrder(said, c.since, c.told, c.queued)
  }

  /** Told everything up to some point, and its queue closed once. */
  ghost predicate Dropped(c: Client, said: seq<string>)
    reads c
  {
    !c.open && c.closes == 1 && InOrder(said, c.since, c.told, c.queued)
  }

  lemma StillInOrder(said: seq<string>, since: nat, told: nat, queued: seq<string>, data: string)
    requires InOrder(said, since, told, queued)
    ensures InOrder(said + [data], since, told, queued)
    ensures told == |said| && |queued| < CLIENT_BUFFER ==>
              InOrder(said + [data], since, told + 1, queued + [data])
  {
    assert (said + [data])[told - |queued|..told] == said[told - |queued|..told];
  }

  /** The pump's next message is the one said next, and the rest still waits in order. */
  lemma TakenInOrder(said: seq<string>, since: nat, told: nat, queued: seq<string>)
    requires InOrder(said, since, told, queued) && queued != []
    ensures queued[0] == said[told - |queued|] && InOrder(said, since, told, queued[1..])
  {
  }

  /** One history for each run that is kept, and each such run once in the order. */
  ghost predicate Kept(runs: map<string, RunHistory>, logs: map<string, seq<Record>>, order: seq<string>) {
    (forall id :: id in runs <==> id in logs) && (forall id :: id in runs ==> Replays(runs[id], logs[id])) &&
    (forall i, j :: 0 <= i < j < |order| ==> order[i] != order[j]) && forall id :: id in order <==> id in runs
  }

  /** Whoever is connected has been told everything, whoever no longer is was closed once; todo are those who
      are still to be told the last of it. */
  ghost predicate Served(clients: set<Client>, todo: set<Client>, everyone: set<Client>, said: seq<string>)
    reads everyone
  {
    todo <= clients <= everyone && (todo != {} ==> said != []) &&
    (forall c :: c in todo ==> Listens(c, said[..|said| - 1])) &&
    (forall c :: c in clients && c !in todo ==> Listens(c, said)) &&
    forall c :: c in everyone && c !in clients ==> Dropped(c, said)
  }

  // ---- what was said of each run ----

  /** One message, as the hub was given it. */
  datatype News = News(run: string, rec: Record)

  /** What of the news is about one run. */
  function PartOf(news: seq<News>, run: string): seq<Record> {
    if news == [] then []
    else PartOf(news[..|news| - 1], run) + if news[|news| - 1].run == run then [news[|news| - 1].rec] else []
  }

  lemma PartOfOneMore(news: seq<News>, n: News, run: string)
    ensures PartOf(news + [n], run) == PartOf(news, run) + if n.run == run then [n.rec] else []
  {
    assert (news + [n])[..|news|] == news;
  }

  lemma {:induction false} PartOfBoth(before: seq<News>, after: seq<News>, run: string)
    ensures PartOf(before + after, run) == PartOf(before, run) + PartOf(after, run)
  {
    if after == [] {
      assert before + after == before;
    } else {
      var front, last := after[..|after| - 1], after[|after| - 1];
      PartOfBoth(before, front, run);
      LastLast(before, after);
      PartOfOneMore(before + front, last, run);
    }
  }

  /** What every kept run's history holds. */
  ghost function RecordsOf(runs: map<string, RunHistory>): map<string, seq<Record>> {
    map id | id in runs :: runs[id].records
  }

  /** When a kept run's history opened: how much had been said, and how many had connected. */
  datatype Opening = Opening(at: nat, age: nat)

  /** A kept run's log is what has been said of it since its history opened. */
  ghost predicate LogsItsPart(logs: map<string, seq<Record>>, openings: map<string, Opening>, news: seq<News>, age: nat,
                              id: string) {
    (id in logs <==> id in openings) &&
    (id in logs ==>
       var o := openings[id];
       o.at <= |news| && o.age <= age && logs[id] == PartOf(news[o.at..], id))
  }

  ghost predicate Logged(logs: map<string, seq<Record>>, openings: map<string, Opening>, news: seq<News>, age: nat) {
    forall id :: LogsItsPart(logs, openings, news, age, id)
  }

  /** Whoever connected as the age-th after the run's history opened, with the history kept since. */
  predicate KeptSince(o: Opening, age: nat) { o.age < age }

  /** Of a run kept since it connected a client was handed the collapse of all said of it up to then; of a run
      whose history opened later nothing had been said before. */
  ghost predicate HandedItsPart(given: map<string, seq<Record>>, since: nat, age: nat, openings: map<string, Opening>,
                                news: seq<News>, id: string) {
    id in openings ==>
      since <= |news| &&
      var at := openings[id].at;
      if KeptSince(openings[id], age) then
        at <= since && id in given && given[id] == Collapse(PartOf(news[at..since], id))
      else since <= at
  }

  ghost predicate HandedTo(c: Client, openings: map<string, Opening>, news: seq<News>, age: nat) {
    c.age <= age && c.since <= |news| && Spells(c.handout, c.given) &&
    forall id :: HandedItsPart(c.given, c.since, c.age, openings, news, id)
  }

  ghost predicate Handed(everyone: set<Client>, openings: map<string, Opening>, news: seq<News>, age: nat) {
    forall c {:trigger HandedTo(c, openings, news, age)} :: c in everyone ==> HandedTo(c, openings, news, age)
  }

  ghost predicate SaysAt(said: seq<string>, news: seq<News>, k: nat) {
    k < |said| && k < |news| ==> said[k] == news[k].rec.data
  }

  ghost predicate SaysTheNews(said: seq<string>, news: seq<News>) {
    |said| == |news| && forall k: nat :: SaysAt(said, news, k)
  }

  /** What one more message makes of the logs. */
  ghost function Longer(logs: map<string, seq<Record>>, n: News): map<string, seq<Record>> {
    if n.run in logs then logs[n.run := logs[n.run] + [n.rec]] else logs
  }

  lemma LogGrows(logs: map<string, seq<Record>>, openings: map<string, Opening>, news: seq<News>, age: nat, n: News,
                 id: string)
    requires LogsItsPart(logs, openings, news, age, id) && LogsItsPart(logs, openings, news, age, n.run)
    ensures LogsItsPart(Longer(logs, n), openings, news + [n], age, id)
  {
    if id in openings {
      var at := openings[id].at;
      assert (news + [n])[at..] == news[at..] + [n];
      PartOfOneMore(news[at..], n, id);
      if n.run != id { assert logs[id] + [] == logs[id]; }
    }
  }

  lemma LoggedGrows(logs: map<string, seq<Record>>, openings: map<string, Opening>, news: seq<News>, age: nat, n: News)
    requires Logged(logs, openings, news, age)
    ensures Logged(Longer(logs, n), openings, news + [n], age)
  {
    forall id ensures LogsItsPart(Longer(logs, n), openings, news + [n], age, id) {
      assert LogsItsPart(logs, openings, news, age, id) && LogsItsPart(logs, openings, news, age, n.run);
      LogGrows(logs, openings, news, age, n, id);
    }
  }

  lemma HandedPartStays(given: map<string, seq<Record>>, since: nat, age: nat, openings: map<string, Opening>,
                        news: seq<News>, n: News, id: string)
    requires since <= |news| && HandedItsPart(given, since, age, openings, news, id)
    ensures HandedItsPart(given, since, age, openings, news + [n], id)
  {
    if id in openings && KeptSince(openings[id], age) {
      assert (news + [n])[openings[id].at..since] == news[openings[id].at..since];
    }
  }

  lemma HandedGrows(everyone: set<Client>, openings: map<string, Opening>, news: seq<News>, age: nat, n: News)
    requires Handed(everyone, openings, news, age)
    ensures Handed(everyone, openings, news + [n], age)
  {
    forall c | c in everyone ensures HandedTo(c, openings, news + [n], age) {
      assert HandedTo(c, openings, news, age);
      forall id ensures HandedItsPart(c.given, c.since, c.age, openings, news + [n], id) {
        HandedPartStays(c.given, c.since, c.age, openings, news, n, id);
      }
    }
  }

  /** Logs, news and what was handed out agree. */
  ghost predicate Agreed(everyone: set<Client>, said: seq<string>, logs: map<string, seq<Record>>,
                         openings: map<string, Opening>, news: seq<News>, age: nat) {
    SaysTheNews(said, news) && Logged(logs, openings, news, age) && Handed(everyone, openings, news, age)
  }

  lemma AgreedGrows(everyone: set<Client>, said: seq<string>, logs: map<string, seq<Record>>,
                    openings: map<string, Opening>, news: seq<News>, age: nat, n: News)
    requires Agreed(everyone, said, logs, openings, news, age)
    ensures Agreed(everyone, said + [n.rec.data], Longer(logs, n), openings, news + [n], age)
  {
    forall k: nat ensures SaysAt(said + [n.rec.data], news + [n], k) {
      assert SaysAt(said, news, k);
    }
    LoggedGrows(logs, openings, news, age, n);
    HandedGrows(everyone, openings, news, age, n);
  }

  /** A history opens: nothing of it is logged yet, and nobody was handed any. */
  lemma OpeningIsAgreed(everyone: set<Client>, said: seq<string>, logs: map<string, seq<Record>>,
                        openings: map<string, Opening>, news: seq<News>, age: nat, run: string)
    requires Agreed(everyone, said, logs, openings, news, age)
    ensures Agreed(everyone, said, logs[run := []], openings[run := Opening(|news|, age)], news, age)
  {
    var emptied, later := logs[run := []], openings[run := Opening(|news|, age)];
    forall id ensures LogsItsPart(emptied, later, news, age, id) {
      assert LogsItsPart(logs, openings, news, age, id);
    }
    forall c | c in everyone ensures HandedTo(c, later, news, age) {
      assert HandedTo(c, openings, news, age);
      forall id ensures HandedItsPart(c.given, c.since, c.age, later, news, id) {
        assert HandedItsPart(c.given, c.since, c.age, openings, news, id);
      }
    }
  }

  lemma DroppingIsAgreed(everyone: set<Client>, said: seq<string>, logs: map<string, seq<Record>>,
                         openings: map<string, Opening>, news: seq<News>, age: nat, run: string)
    requires Agreed(everyone, said, logs, openings, news, age)
    ensures Agreed(everyone, said, logs - {run}, openings - {run}, news, age)
  {
    var kept, rest := logs - {run}, openings - {run};
    forall id ensures LogsItsPart(kept, rest, news, age, id) {
      assert LogsItsPart(logs, openings, news, age, id);
    }
    forall c | c in everyone ensures HandedTo(c, rest, news, age) {
      assert HandedTo(c, openings, news, age);
      forall id ensures HandedItsPart(c.given, c.since, c.age, rest, news, id) {
        assert HandedItsPart(c.given, c.since, c.age, openings, news, id);
      }
    }
  }

  class Hub {
    const head: string
    var runs: map<string, RunHistory>
    var order: seq<string>
    var clients: set<Client>
    var closed: bool
    /** Everything published to each run that is kept, everything ever broadcast, everyone who ever connected. */
    ghost var logs: map<string, seq<Record>>
    ghost var said: seq<string>
    ghost var everyone: set<Client>
    /** What was said, with the run it was about; when each kept run opened; how many have connected. */
    ghost var news: seq<News>
    ghost var openings: map<string, Opening>
    ghost var age: nat

    ghost predicate Valid()
      reads this, everyone
    {
      Kept(runs, logs, order) && Served(clients, {}, everyone, said) && (closed ==> clients == {}) &&
      Agreed(everyone, said, logs, openings, news, age)
    }

    constructor (head: string)
      ensures Valid() && this.head == head && !closed && logs == map[] && order == [] && said == [] && everyone == {}
    {
      this.head, runs, order, clients, closed := head, map[], [], {}, false;
      logs, said, everyone, news, openings, age := map[], [], {}, [], map[], 0;
    }

    /** dropLocked: the one place a queue is closed. */
    method DropClient(c: Client)
      requires c in everyone && (c in clients ==> c.open)
      modifies this`clients, c`open, c`closes
      ensures clients == old(clients) - {c}
      ensures c in old(clients) ==> !c.open && c.closes == old(c.closes) + 1
      ensures c !in old(clients) ==> c.open == old(c.open) && c.closes == old(c.closes)
    {
      if c !in clients { return; }
      clients := clients - {c};
      c.CloseQueue();
    }

    method DropServed(c: Client)
      requires Served(clients, {}, everyone, said) && c in everyone
      modifies this`clients, c`open, c`closes
      ensures Served(clients, {}, everyone, said) && clients == old(clients) - {c}
    {
      DropClient(c);
    }

    method Remove(c: Client)
      requires Valid() && c in everyone
      modifies this`clients, c
      ensures Valid() && clients == old(clients) - {c} && everyone == old(everyone)
    {
      DropServed(c);
    }

    method Close()
      requires Valid()
      modifies this`clients, this`closed, clients
      ensures Valid() && closed && clients == {}
    {
      if closed { return; }
      closed := true;
      while clients != {}
        invariant closed && clients <= old(clients) && Served(clients, {}, everyone, said)
        decreases |clients|
      {
        var c: Client :| c in clients;
        DropServed(c);
      }
    }

    /** appendLocked: a run that is not kept has nothing to be replayed from. */
    method AppendTo(run: string, rec: Record)
      requires Kept(runs, logs, order)
      modifies this`runs, this`logs
      ensures Kept(runs, logs, order)
      ensures logs == Longer(old(logs), News(run, rec))
    {
      if run !in runs { return; }
      var longer := Append(runs[run], rec, logs[run]);
      runs, logs := runs[run := longer], logs[run := logs[run] + [rec]];
    }

    /** broadcastLocked: to every client whose queue has room; the others are dropped. */
    method Broadcast(data: string)
      requires Served(clients, {}, everyone, said)
      modifies this`clients, this`said, clients
      ensures Served(clients, {}, everyone, said) && said == old(said) + [data]
      ensures forall c :: c in clients <==> c in old(clients) && old(|c.queued|) < CLIENT_BUFFER
    {
      StartTelling(clients, everyone, said, data);
      said := said + [data];
      TellEveryone(data);
    }

    /** The loop of a broadcast, everyone connected still to be told the last thing said. */
    method TellEveryone(data: string)
      requires Served(clients, clients, everyone, said) && said != [] && said[|said| - 1] == data
      modifies this`clients, clients
      ensures Served(clients, {}, everyone, said)
      ensures forall c :: c in clients <==> c in old(clients) && old(|c.queued|) < CLIENT_BUFFER
    {
      var todo := clients;
      while todo != {}
        invariant clients <= old(clients) && Served(clients, todo, everyone, said)
        invariant forall c :: c in todo ==> c.queued == old(c.queued)
        invariant forall c :: c in old(clients) && c !in todo ==> (c in clients <==> old(|c.queued|) < CLIENT_BUFFER)
        decreases |todo|
      {
        var c: Client :| c in todo;
        Tell(c, data);
        todo := todo - {c};
      }
    }

    /** One client's share of a broadcast. */
    method Tell(c: Client, data: string)
      requires c in clients && c in everyone && said != [] && said[|said| - 1] == data
      requires Listens(c, said[..|said| - 1])
      modifies this`clients, c
      ensures clients == if old(|c.queued|) < CLIENT_BUFFER then old(clients) else old(clients) - {c}
      ensures c in clients ==> Listens(c, said)
      ensures c !in clients ==> Dropped(c, said)
    {
      ghost var before := said[..|said| - 1];
      assert said == before + [data];
      StillInOrder(before, c.since, c.told, c.queued, data);
      var ok := c.Offer(data);
      if !ok { DropClient(c); }
    }

    /** appendLocked and broadcastLocked, one after the other under one lock. */
    method Say(run: string, rec: Record)
      requires Valid() && !closed
      modifies this`runs, this`logs, this`clients, this`said, this`news, clients
      ensures Valid() && news == old(news) + [News(run, rec)]
      ensures logs == Longer(old(logs), News(run, rec))
      ensures forall c :: c in clients <==> c in old(clients) && old(|c.queued|) < CLIENT_BUFFER
    {
      AgreedGrows(everyone, said, logs, openings, news, age, News(run, rec));
      AppendTo(run, rec);
      Broadcast(rec.data);
      news := news + [News(run, rec)];
    }

    /** A run's history opens with its first message. */
    method Begin(run: string, rec: Record)
      requires Valid()
      modifies this`runs, this`order, this`logs, this`openings, this`clients, this`said, this`news, clients
      ensures Valid()
      ensures closed ==> logs == old(logs) && order == old(order) && news == old(news) && clients == old(clients)
      ensures !closed ==>
                news == old(news) + [News(run, rec)] &&
                logs == old(logs)[run := if run in old(logs) then old(logs)[run] + [rec] else [rec]] &&
                order == (if run in old(logs) then old(order) else old(order) + [run])
      ensures run in old(logs) ==> openings == old(openings)
    {
      if closed { return; }
      if run in runs { Say(run, rec); } else { BeginNew(run, rec); }
    }

    method BeginNew(run: string, rec: Record)
      requires Valid() && !closed && run !in runs
      modifies this`runs, this`order, this`logs, this`openings, this`clients, this`said, this`news, clients
      ensures Valid() && news == old(news) + [News(run, rec)]
      ensures logs == old(logs)[run := [rec]] && order == old(order) + [run]
    {
      ghost var before := logs;
      Open(run);
      ghost var emptied := logs;
      Say(run, rec);
      FirstInItsLog(before, emptied, logs, run, rec);
    }

    method Open(run: string)
      requires Kept(runs, logs, order) && Agreed(everyone, said, logs, openings, news, age) && run !in runs
      modifies this`runs, this`order, this`logs, this`openings
      ensures Kept(runs, logs, order) && Agreed(everyone, said, logs, openings, news, age)
      ensures logs == old(logs)[run := []] && order == old(order) + [run]
    {
      OpenOrder(runs, logs, order, run);
      OpeningIsAgreed(everyone, said, logs, openings, news, age, run);
      runs, order, logs := runs[run := RunHistory([], map[])], order + [run], logs[run := []];
      openings := openings[run := Opening(|news|, age)];
    }

    /** To the run's history, if it is kept, and to everyone connected. */
    method Publish(run: string, rec: Record)
      requires Valid()
      modifies this`runs, this`logs, this`clients, this`said, this`news, clients
      ensures Valid()
      ensures closed ==> logs == old(logs) && news == old(news) && clients == old(clients)
      ensures !closed ==>
                news == old(news) + [News(run, rec)] &&
                logs == (if run in old(logs) then old(logs)[run := old(logs)[run] + [rec]] else old(logs)) &&
                forall c :: c in clients <==> c in old(clients) && old(|c.queued|) < 512
    {
      if closed { return; }
      Say(run, rec);
    }

    /** Forgets one run's history, and nothing else. */
    method Drop(run: string)
      requires Valid()
      modifies this`runs, this`order, this`logs, this`openings
      ensures Valid() && logs == old(logs) - {run} && openings == old(openings) - {run}
      ensures run !in order && (run !in old(order) ==> order == old(order))
      ensures forall i :: 0 <= i < |old(order)| && old(order)[i] == run ==>
                order == old(order)[..i] + old(order)[i + 1..]
    {
      DroppingIsAgreed(everyone, said, logs, openings, news, age, run);
      Forget(run);
      openings := openings - {run};
    }

    method Forget(run: string)
      requires Kept(runs, logs, order)
      modifies this`runs, this`order, this`logs
      ensures Kept(runs, logs, order) && logs == old(logs) - {run}
      ensures run !in order && (run !in old(order) ==> order == old(order))
      ensures forall i :: 0 <= i < |old(order)| && old(order)[i] == run ==>
                order == old(order)[..i] + old(order)[i + 1..]
    {
      if run !in runs {
        assert logs - {run} == logs;
        return;
      }
      assert run in order;
      var i := 0;
      while order[i] != run
        invariant i < |order| && forall j :: 0 <= j < i ==> order[j] != run
        decreases |order| - i
      {
        i := i + 1;
      }
      KeptWithout(runs, logs, order, i);
      runs, logs, order := runs - {run}, logs - {run}, order[..i] + order[i + 1..];
    }

    /** Registers a connection and hands back the replay, both at once: nothing is said in between. */
    method Subscribe() returns (c: Client, backlog: seq<string>)
      requires Valid()
      modifies this`clients, this`everyone, this`age
      ensures Valid() && fresh(c)
      ensures closed ==> !c.open && c.closes == 1 && backlog == [] && clients == old(clients)
      ensures !closed ==>
                clients == old(clients) + {c} && everyone == old(everyone) + {c} && c.since == |said| &&
                (forall id :: id in runs <==> id in c.given) &&
                (forall id :: id in runs ==> c.given[id] == Collapse(logs[id]))
      ensures !closed ==>
                c.handout.backlog == backlog && c.handout.order == order && |c.handout.starts| == |order| + 1 &&
                backlog != [] && backlog[0] == head && c.handout.starts[0] == 1 &&
                c.handout.starts[|order|] == |backlog| &&
                forall n :: 0 <= n < |order| ==>
                  order[n] in runs && order[n] in c.given &&
                  c.handout.starts[n + 1] == c.handout.starts[n] + |c.given[order[n]]| &&
                  SpelledAt(backlog, c.handout.starts[n], c.given[order[n]])
      ensures !closed ==> forall id :: id in runs ==> id in openings && KeptSince(openings[id], c.age)
    {
      if closed {
        backlog := [];
        c := TurnedAway();
        return;
      }
      ghost var starts;
      backlog, starts := Backlog();
      HandsOut(runs, logs, order, backlog, starts);
      c := Connect(Handout(backlog, order, starts));
    }

    method TurnedAway() returns (c: Client)
      requires Valid()
      ensures Valid() && fresh(c) && !c.open && c.closes == 1
    {
      c := new Client(|said|, age + 1, map[], Handout([], [], []));
      c.CloseQueue();
    }

    method Connect(ghost handout: Handout) returns (c: Client)
      requires Valid() && !closed && Spells(handout, RecordsOf(runs))
      modifies this`clients, this`everyone, this`age
      ensures Valid() && fresh(c) && c.since == |said| && c.given == RecordsOf(runs) && c.handout == handout
      ensures clients == old(clients) + {c} && everyone == old(everyone) + {c}
      ensures forall id :: id in runs ==> id in openings && KeptSince(openings[id], c.age)
    {
      c := new Client(|said|, age + 1, RecordsOf(runs), handout);
      Register(c);
    }

    method Register(c: Client)
      requires Valid() && !closed && c !in everyone && Listens(c, said)
      requires c.since == |said| && c.age == age + 1 && c.given == RecordsOf(runs) && Spells(c.handout, c.given)
      modifies this`clients, this`everyone, this`age
      ensures Valid() && clients == old(clients) + {c} && everyone == old(everyone) + {c}
      ensures forall id :: id in runs ==> id in openings && KeptSince(openings[id], c.age)
    {
      NewcomerAgrees(runs, order, everyone, said, logs, openings, news, age, c);
      NewcomerIsServed(clients, everyone, said, c);
      Admit(c);
    }

    method Admit(c: Client)
      requires Kept(runs, logs, order) && Served(clients + {c}, {}, everyone + {c}, said) && !closed
      requires Agreed(everyone + {c}, said, logs, openings, news, age + 1)
      modifies this`clients, this`everyone, this`age
      ensures Valid() && age == old(age) + 1
      ensures clients == old(clients) + {c} && everyone == old(everyone) + {c}
    {
      clients, everyone, age := clients + {c}, everyone + {c}, age + 1;
    }

    method Backlog() returns (backlog: seq<string>, ghost starts: seq<nat>)
      requires Kept(runs, logs, order)
      ensures Spells(Handout(backlog, order, starts), RecordsOf(runs)) && backlog[0] == head
    {
      backlog, starts := [head], [1];
      for n := 0 to |order|
        invariant SpellsRuns(backlog, order, starts, n, RecordsOf(runs)) && backlog != [] && backlog[0] == head
      {
        assert order[n] in order;
        var records := runs[order[n]].records;
        var longer := Extended(backlog, records);
        OneMoreRun(backlog, order, starts, n, RecordsOf(runs), longer);
        backlog, starts := longer, starts + [|longer|];
      }
    }
  }

  lemma HandsOut(runs: map<string, RunHistory>, logs: map<string, seq<Record>>, order: seq<string>,
                 backlog: seq<string>, starts: seq<nat>)
    requires Kept(runs, logs, order) && Spells(Handout(backlog, order, starts), RecordsOf(runs))
    ensures |starts| == |order| + 1 && starts[0] == 1 && starts[|order|] == |backlog|
    ensures forall n :: 0 <= n < |order| ==>
              order[n] in runs && starts[n + 1] == starts[n] + |RecordsOf(runs)[order[n]]| &&
              SpelledAt(backlog, starts[n], RecordsOf(runs)[order[n]])
    ensures forall id :: id in runs ==> RecordsOf(runs)[id] == Collapse(logs[id])
  {
  }

  lemma OpenOrder(runs: map<string, RunHistory>, logs: map<string, seq<Record>>, order: seq<string>, run: string)
    requires Kept(runs, logs, order) && run !in runs
    ensures Kept(runs[run := RunHistory([], map[])], logs[run := []], order + [run])
  {
    assert run !in order;
    forall id ensures id in order + [run] <==> id in order || id == run {
      if id == run { assert (order + [run])[|order|] == id; }
      if id in order { var k :| 0 <= k < |order| && order[k] == id; assert (order + [run])[k] == id; }
    }
  }

  /** Whoever connects now is handed what every kept run's history holds. */
  lemma NewcomersPart(runs: map<string, RunHistory>, logs: map<string, seq<Record>>, openings: map<string, Opening>,
                      news: seq<News>, age: nat, id: string)
    requires (id in runs <==> id in logs) && (id in runs ==> Replays(runs[id], logs[id]))
    requires LogsItsPart(logs, openings, news, age, id)
    ensures LogsItsPart(logs, openings, news, age + 1, id)
    ensures HandedItsPart(RecordsOf(runs), |news|, age + 1, openings, news, id)
    ensures id in runs ==> id in openings && KeptSince(openings[id], age + 1)
  {
    if id in openings { assert news[openings[id].at..|news|] == news[openings[id].at..]; }
  }

  lemma NewcomerIsServed(clients: set<Client>, everyone: set<Client>, said: seq<string>, c: Client)
    requires Served(clients, {}, everyone, said) && c !in everyone && Listens(c, said)
    ensures Served(clients + {c}, {}, everyone + {c}, said)
  {
  }

  lemma NewcomerAgrees(runs: map<string, RunHistory>, order: seq<string>, everyone: set<Client>, said: seq<string>,
                       logs: map<string, seq<Record>>, openings: map<string, Opening>, news: seq<News>, age: nat,
                       c: Client)
    requires Kept(runs, logs, order) && Agreed(everyone, said, logs, openings, news, age)
    requires c.since == |said| && c.age == age + 1 && c.given == RecordsOf(runs) && Spells(c.handout, c.given)
    ensures Agreed(everyone + {c}, said, logs, openings, news, age + 1)
    ensures forall id :: id in runs ==> id in openings && KeptSince(openings[id], c.age)
  {
    var given := c.given;
    forall id ensures LogsItsPart(logs, openings, news, age + 1, id)
      ensures HandedItsPart(given, |news|, age + 1, openings, news, id)
      ensures id in runs ==> id in openings && KeptSince(openings[id], age + 1) {
      assert LogsItsPart(logs, openings, news, age, id);
      NewcomersPart(runs, logs, openings, news, age, id);
    }
    forall d | d in everyone + {c} ensures HandedTo(d, openings, news, age + 1) {
      if d != c { assert HandedTo(d, openings, news, age); }
    }
  }

  /** A client's own backlog of a run and what it was told of the run since collapse to what a client that
      connects now is given, for every client still connected and every run kept since it connected. A run whose
      history opened after it connected it has been told all of. */
  lemma BacklogAndTheRestAgree(hub: Hub, c: Client, id: string)
    requires hub.Valid() && c in hub.clients && id in hub.runs
    ensures c.since <= c.told == |hub.news| && id in hub.openings
    ensures KeptSince(hub.openings[id], c.age) ==>
              id in c.given &&
              Collapse(c.given[id] + PartOf(hub.news[c.since..c.told], id)) == hub.runs[id].records
    ensures !KeptSince(hub.openings[id], c.age) ==>
              c.since <= hub.openings[id].at <= c.told &&
              Collapse(PartOf(hub.news[hub.openings[id].at..c.told], id)) == hub.runs[id].records
  {
    assert c in hub.everyone && Listens(c, hub.said) && Replays(hub.runs[id], hub.logs[id]);
    assert LogsItsPart(hub.logs, hub.openings, hub.news, hub.age, id) && HandedTo(c, hub.openings, hub.news, hub.age);
    PartsAgree(c.given, c.since, c.age, hub.openings, hub.news, hub.age, id, hub.logs);
  }

  /** What was said of one run, as it was said. */
  function SaidOf(said: seq<string>, news: seq<News>, run: string): seq<string>
    requires |said| == |news|
  {
    if news == [] then []
    else
      var n := |news| - 1;
      SaidOf(said[..n], news[..n], run) + if news[n].run == run then [said[n]] else []
  }

  ghost predicate Spell(strings: seq<string>, records: seq<Record>) {
    |strings| == |records| && forall k :: 0 <= k < |records| ==> strings[k] == records[k].data
  }

  lemma {:induction false} SaidSpellsTheNews(said: seq<string>, news: seq<News>, run: string)
    requires |said| == |news| && forall k :: 0 <= k < |news| ==> said[k] == news[k].rec.data
    ensures Spell(SaidOf(said, news, run), PartOf(news, run))
  {
    if news != [] {
      var n := |news| - 1;
      SaidSpellsTheNews(said[..n], news[..n], run);
    }
  }

  /** And so for the strings themselves: what a client still connected was handed of a run kept since it connected,
      followed by what it was sent of it, spells records that collapse to what a page that connects now is handed. */
  lemma StringsAgree(hub: Hub, c: Client, id: string) returns (n: nat, records: seq<Record>)
    requires hub.Valid() && c in hub.clients && id in hub.runs && id in hub.openings
    requires KeptSince(hub.openings[id], c.age)
    ensures n < |c.handout.order| && c.handout.order[n] == id && |c.handout.starts| == |c.handout.order| + 1
    ensures c.handout.starts[n] <= c.handout.starts[n + 1] <= |c.handout.backlog|
    ensures c.since <= c.told <= |hub.said| == |hub.news|
    ensures Spell(c.handout.backlog[c.handout.starts[n]..c.handout.starts[n + 1]] +
                  SaidOf(hub.said[c.since..c.told], hub.news[c.since..c.told], id), records)
    ensures Collapse(records) == hub.runs[id].records
  {
    BacklogAndTheRestAgree(hub, c, id);
    assert c in hub.everyone && HandedTo(c, hub.openings, hub.news, hub.age);
    assert id in c.given && id in c.handout.order;
    n :| 0 <= n < |c.handout.order| && c.handout.order[n] == id;
    assert SpelledAt(c.handout.backlog, c.handout.starts[n], c.given[id]);
    records := c.given[id] + PartOf(hub.news[c.since..c.told], id);
    SentSpells(hub.said, hub.news, c.since, c.told, id);
    HandedAndSent(c.handout.backlog, c.handout.starts[n], c.given[id],
                  SaidOf(hub.said[c.since..c.told], hub.news[c.since..c.told], id),
                  PartOf(hub.news[c.since..c.told], id));
  }

  lemma SentSpells(said: seq<string>, news: seq<News>, since: nat, told: nat, run: string)
    requires SaysTheNews(said, news) && since <= told <= |said|
    ensures Spell(SaidOf(said[since..told], news[since..told], run), PartOf(news[since..told], run))
  {
    forall k | 0 <= k < told - since ensures said[since..told][k] == news[since..told][k].rec.data {
      assert SaysAt(said, news, since + k);
    }
    SaidSpellsTheNews(said[since..told], news[since..told], run);
  }

  lemma HandedAndSent(backlog: seq<string>, at: nat, given: seq<Record>, sent: seq<string>, told: seq<Record>)
    requires SpelledAt(backlog, at, given) && Spell(sent, told)
    ensures Spell(backlog[at..at + |given|] + sent, given + told)
  {
  }

  lemma PartsAgree(given: map<string, seq<Record>>, since: nat, age: nat, openings: map<string, Opening>,
                   news: seq<News>, now: nat, id: string, logs: map<string, seq<Record>>)
    requires id in openings && since <= |news|
    requires LogsItsPart(logs, openings, news, now, id) && HandedItsPart(given, since, age, openings, news, id)
    ensures KeptSince(openings[id], age) ==>
              Collapse(given[id] + PartOf(news[since..|news|], id)) == Collapse(logs[id])
    ensures !KeptSince(openings[id], age) ==> PartOf(news[openings[id].at..|news|], id) == logs[id]
  {
    var at := openings[id].at;
    assert news[at..|news|] == news[at..];
    if KeptSince(openings[id], age) {
      var before, after := news[at..since], news[since..|news|];
      assert news[at..] == before + after;
      PartOfBoth(before, after, id);
      BacklogAndTheRest(PartOf(before, id), PartOf(after, id));
    }
  }

  /** The pump takes a client's next message, the one said next to it, and the hub is what it was. */
  method TakeNext(hub: Hub, c: Client) returns (data: string)
    requires hub.Valid() && c in hub.everyone && c.queued != []
    modifies c`queued
    ensures hub.Valid() && data == hub.said[c.told - |old(c.queued)|] && old(c.queued) == [data] + c.queued
  {
    TakenInOrder(hub.said, c.since, c.told, c.queued);
    data := c.Take();
  }

  lemma FirstInItsLog(before: map<string, seq<Record>>, emptied: map<string, seq<Record>>,
                      after: map<string, seq<Record>>, run: string, rec: Record)
    requires emptied == before[run := []] && after == emptied[run := emptied[run] + [rec]]
    ensures after == before[run := [rec]]
  {
    assert [] + [rec] == [rec];
  }

  lemma StartTelling(clients: set<Client>, everyone: set<Client>, said: seq<string>, data: string)
    requires Served(clients, {}, everyone, said)
    ensures Served(clients, clients, everyone, said + [data])
  {
    assert (said + [data])[..|said|] == said;
    forall c | c in everyone && c !in clients ensures Dropped(c, said + [data]) {
      StillInOrder(said, c.since, c.told, c.queued, data);
    }
  }

  /** The inner loop of subscribe: one more string for each record. */
  method Extended(backlog: seq<string>, records: seq<Record>) returns (longer: seq<string>)
    ensures |longer| == |backlog| + |records| && longer[..|backlog|] == backlog
    ensures SpelledAt(longer, |backlog|, records)
  {
    longer := backlog;
    for m := 0 to |records|
      invariant |longer| == |backlog| + m && longer[..|backlog|] == backlog
      invariant forall k :: 0 <= k < m ==> longer[|backlog| + k] == records[k].data
    {
      longer := longer + [records[m].data];
    }
  }

  lemma OneMoreRun(backlog: seq<string>, order: seq<string>, starts: seq<nat>, n: nat,
                   given: map<string, seq<Record>>, longer: seq<string>)
    requires n < |order| && SpellsRuns(backlog, order, starts, n, given) && order[n] in given
    requires |longer| == |backlog| + |given[order[n]]| && longer[..|backlog|] == backlog
    requires SpelledAt(longer, |backlog|, given[order[n]])
    ensures SpellsRuns(longer, order, starts + [|longer|], n + 1, given)
  {
    var more := starts + [|longer|];
    forall i | 0 <= i < n + 1
      ensures order[i] in given && more[i + 1] == more[i] + |given[order[i]]| &&
              SpelledAt(longer, more[i], given[order[i]]) {
      if i < n {
        assert SpelledAt(backlog, starts[i], given[order[i]]);
        assert forall j :: 0 <= j < |backlog| ==> longer[j] == backlog[j];
      }
    }
  }

  lemma WithoutOne(order: seq<string>, i: nat)
    requires i < |order| && forall j, k :: 0 <= j < k < |order| ==> order[j] != order[k]
    ensures var rest := order[..i] + order[i + 1..];
            (forall j, k :: 0 <= j < k < |rest| ==> rest[j] != rest[k]) &&
            forall id :: id in rest <==> id in order && id != order[i]
  {
    var rest := order[..i] + order[i + 1..];
    forall id | id in order && id != order[i] ensures id in rest {
      var k :| 0 <= k < |order| && order[k] == id;
      assert rest[if k < i then k else k - 1] == id;
    }
  }

  lemma KeptWithout(runs: map<string, RunHistory>, logs: map<string, seq<Record>>, order: seq<string>, i: nat)
    requires Kept(runs, logs, order) && i < |order|
    ensures Kept(runs - {order[i]}, logs - {order[i]}, order[..i] + order[i + 1..])
  {
    WithoutOne(order, i);
  }
}
