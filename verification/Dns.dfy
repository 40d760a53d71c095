/**
  The PHP name cache: answers are kept until their TTL expires, failures are not kept, and
  literals never reach the cache. A lookup yields between reading the clock and storing its
  answer, so other lookups, `setTtl` and `clear` may come in between.
 */
module Dns {
  import opened Wrappers

  type TaskId = nat
  type IsIp = string -> bool        // `filter_var(.., FILTER_VALIDATE_IP)`

  datatype Entry = Entry(ip: string, expires: int)

  type Table = map<string, Entry>

  // ---------------------------------------------------------------- the two halves of a lookup

  /** The cache has an answer for this name that has not expired. */
  predicate Held(cache: Table, isIp: IsIp, host: string, now: int) {
    host != "" && !isIp(host) && host in cache && now < cache[host].expires
  }

  /** What is returned without asking: a literal as it is, or the answer that is held. */
  function Known(cache: Table, isIp: IsIp, host: string, now: int): Option<string> {
    if host == "" || isIp(host) then Some(host)
    else if Held(cache, isIp, host, now) then Some(cache[host].ip)
    else None
  }

  /** What an uncached lookup returns: the name itself when it fails. */
  function Direct(isIp: IsIp, host: string, answer: Option<string>): string {
    if host == "" || isIp(host) || answer.None? then host else answer.value
  }

  predicate Keeps(isIp: IsIp, host: string, answer: Option<string>) {
    answer.Some? && answer.value != host && isIp(answer.value)
  }

  /** The cache after an answer to a lookup that read the clock at `asked`. */
  function Kept(cache: Table, isIp: IsIp, host: string, asked: int, ttl: int, answer: Option<string>): Table {
    if Keeps(isIp, host, answer) then cache[host := Entry(answer.value, asked + ttl)] else cache
  }

  // ---------------------------------------------------------------- where entries come from

  /** A stored answer: which lookup, of what, what came back, when it began, and the TTL when it ended. */
  datatype Answered = Answered(task: TaskId, host: string, ip: string, at: int, ttl: int)

  /**
    Which answers are meant: those from number `from` on, of lookups that began at `since` or
    later, and not of the lookups `past`.
   */
  datatype Bound = Bound(from: nat, since: int, past: set<TaskId>)

  predicate Within(history: seq<Answered>, b: Bound, i: nat) {
    b.from <= i < |history| && b.since <= history[i].at && history[i].task !in b.past
  }

  predicate Justifies(a: Answered, host: string, e: Entry) {
    a.host == host && a.ip == e.ip && e.expires == a.at + a.ttl
  }

  /** Among these answers there is one that the entry comes from. */
  predicate Vouched(history: seq<Answered>, b: Bound, host: string, e: Entry) {
    exists i :: 0 <= i < |history| && Within(history, b, i) && Justifies(history[i], host, e)
  }

  /** Such an answer, less than its TTL old. */
  predicate Recent(history: seq<Answered>, b: Bound, host: string, ip: string, now: int) {
    exists i :: 0 <= i < |history| && Within(history, b, i) && Returned(history[i], host, ip, now)
  }

  predicate Returned(a: Answered, host: string, ip: string, now: int) {
    a.host == host && a.ip == ip && now < a.at + a.ttl
  }

  /** Only addresses are held, only for names, and each for such an answer. */
  predicate Sound(cache: Table, history: seq<Answered>, isIp: IsIp, b: Bound) {
    forall host :: host in cache ==>
      !isIp(host) && host != "" && isIp(cache[host].ip) && Vouched(history, b, host, cache[host])
  }

  lemma StoreKeepsSound(cache: Table, history: seq<Answered>, isIp: IsIp, b: Bound, a: Answered)
    requires Sound(cache, history, isIp, b) && b.from <= |history| && b.since <= a.at && a.task !in b.past
    requires !isIp(a.host) && a.host != "" && isIp(a.ip)
    ensures Sound(cache[a.host := Entry(a.ip, a.at + a.ttl)], history + [a], isIp, b)
  {
    var history' := history + [a];
    assert Within(history', b, |history|) && Justifies(history'[|history|], a.host, Entry(a.ip, a.at + a.ttl));
    forall h | h in cache
      ensures Vouched(history', b, h, cache[h])
    {
      var i :| 0 <= i < |history| && Within(history, b, i) && Justifies(history[i], h, cache[h]);
      assert Within(history', b, i) && Justifies(history'[i], h, cache[h]);
    }
  }

  /** What is held comes from an answer that is still recent. */
  lemma HeldIsRecent(cache: Table, history: seq<Answered>, isIp: IsIp, b: Bound, host: string, now: int)
    requires Sound(cache, history, isIp, b) && Held(cache, isIp, host, now)
    ensures isIp(cache[host].ip) && Recent(history, b, host, cache[host].ip, now)
  {
    var i :| 0 <= i < |history| && Within(history, b, i) && Justifies(history[i], host, cache[host]);
    assert Returned(history[i], host, cache[host].ip, now);
  }

  // ---------------------------------------------------------------- many lookups at once

  datatype Phase = Asking(host: string, asked: int) | Done(host: string, result: string)

  datatype Hit = Hit(host: string, ip: string, at: int)

  datatype State = State(
    now: int,
    ttl: int,
    cache: Table,
    tasks: map<TaskId, Phase>,
    history: seq<Answered>,    // every answer that was stored
    hits: seq<Hit>)            // every answer that was served from the cache

  datatype Action =
    | Tick(d: nat)
    | SetTtl(seconds: int)
    | Clear
    | Begin(task: TaskId, host: string)
    | Finish(task: TaskId, answer: Option<string>)

  predicate Enabled(s: State, a: Action) {
    match a
    case Begin(t, _) => t !in s.tasks
    case Finish(t, _) => t in s.tasks && s.tasks[t].Asking?
    case _ => true
  }

  function Next(s: State, isIp: IsIp, a: Action): State
    requires Enabled(s, a)
  {
    match a
    case Tick(d) => s.(now := s.now + d)
    case SetTtl(seconds) => s.(ttl := seconds)
    case Clear => s.(cache := map[])
    case Begin(t, host) =>
      (match Known(s.cache, isIp, host, s.now)
       case None => s.(tasks := s.tasks[t := Asking(host, s.now)])
       case Some(r) =>
         s.(tasks := s.tasks[t := Done(host, r)],
            hits := if Held(s.cache, isIp, host, s.now) then s.hits + [Hit(host, r, s.now)] else s.hits))
    case Finish(t, answer) =>
      var Asking(host, asked) := s.tasks[t];
      s.(tasks := s.tasks[t := Done(host, Direct(isIp, host, answer))],
         cache := Kept(s.cache, isIp, host, asked, s.ttl, answer),
         history := if Keeps(isIp, host, answer) then s.history + [Answered(t, host, answer.value, asked, s.ttl)]
                    else s.history)
  }

  predicate Possible(s: State, isIp: IsIp, run: seq<Action>)
    decreases |run|
  {
    run == [] || (Enabled(s, run[0]) && Possible(Next(s, isIp, run[0]), isIp, run[1..]))
  }

  function After(s: State, isIp: IsIp, run: seq<Action>): State
    requires Possible(s, isIp, run)
    decreases |run|
  {
    if run == [] then s else After(Next(s, isIp, run[0]), isIp, run[1..])
  }

  lemma RunStep(s: State, isIp: IsIp, a: Action, rest: seq<Action>)
    requires Enabled(s, a) && Possible(Next(s, isIp, a), isIp, rest)
    ensures Possible(s, isIp, [a] + rest) && After(s, isIp, [a] + rest) == After(Next(s, isIp, a), isIp, rest)
  {
    assert ([a] + rest)[1..] == rest;
  }

  /** Lookups under way are for names; their answers are meant, and so are those of lookups to come. */
  predicate AskingOk(s: State, isIp: IsIp, b: Bound) {
    && b.since <= s.now && b.past <= s.tasks.Keys
    && forall t :: t in s.tasks && s.tasks[t].Asking? ==>
         s.tasks[t].host != "" && !isIp(s.tasks[t].host) && b.since <= s.tasks[t].asked && t !in b.past
  }

  /** From hit number `first` on, what was served had been answered recently. */
  predicate HitsOk(s: State, isIp: IsIp, first: nat, b: Bound) {
    forall i :: first <= i < |s.hits| ==>
      isIp(s.hits[i].ip) && Recent(s.history, b, s.hits[i].host, s.hits[i].ip, s.hits[i].at)
  }

  predicate Inv(s: State, isIp: IsIp, first: nat, b: Bound) {
    && b.from <= |s.history| && first <= |s.hits|
    && Sound(s.cache, s.history, isIp, b) && AskingOk(s, isIp, b) && HitsOk(s, isIp, first, b)
  }

  lemma RecentStays(history: seq<Answered>, history': seq<Answered>, b: Bound, h: Hit)
    requires history <= history' && Recent(history, b, h.host, h.ip, h.at)
    ensures Recent(history', b, h.host, h.ip, h.at)
  {
    var i :| 0 <= i < |history| && Within(history, b, i) && Returned(history[i], h.host, h.ip, h.at);
    assert Within(history', b, i) && Returned(history'[i], h.host, h.ip, h.at);
  }

  lemma HitsStay(s: State, s': State, isIp: IsIp, first: nat, b: Bound)
    requires HitsOk(s, isIp, first, b) && s'.hits == s.hits && s.history <= s'.history
    ensures HitsOk(s', isIp, first, b)
  {
    forall i | first <= i < |s'.hits|
      ensures isIp(s'.hits[i].ip) && Recent(s'.history, b, s'.hits[i].host, s'.hits[i].ip, s'.hits[i].at)
    {
      RecentStays(s.history, s'.history, b, s.hits[i]);
    }
  }

  lemma FinishKeepsInv(s: State, isIp: IsIp, a: Action, first: nat, b: Bound)
    requires Inv(s, isIp, first, b) && a.Finish? && Enabled(s, a)
    ensures Inv(Next(s, isIp, a), isIp, first, b)
  {
    var Asking(host, asked) := s.tasks[a.task];
    if Keeps(isIp, host, a.answer) {
      StoreKeepsSound(s.cache, s.history, isIp, b, Answered(a.task, host, a.answer.value, asked, s.ttl));
    }
    HitsStay(s, Next(s, isIp, a), isIp, first, b);
  }

  lemma BeginKeepsInv(s: State, isIp: IsIp, a: Action, first: nat, b: Bound)
    requires Inv(s, isIp, first, b) && a.Begin? && Enabled(s, a)
    ensures Inv(Next(s, isIp, a), isIp, first, b)
  {
    if Held(s.cache, isIp, a.host, s.now) {
      HeldIsRecent(s.cache, s.history, isIp, b, a.host, s.now);
    }
  }

  lemma NextKeepsInv(s: State, isIp: IsIp, a: Action, first: nat, b: Bound)
    requires Inv(s, isIp, first, b) && Enabled(s, a)
    ensures Inv(Next(s, isIp, a), isIp, first, b)
  {
    match a
    case Finish(_, _) => FinishKeepsInv(s, isIp, a, first, b);
    case Begin(_, _) => BeginKeepsInv(s, isIp, a, first, b);
    case _ =>
  }

  lemma {:induction false} RunKeepsInv(s: State, isIp: IsIp, run: seq<Action>, first: nat, b: Bound)
    requires Inv(s, isIp, first, b) && Possible(s, isIp, run)
    ensures Inv(After(s, isIp, run), isIp, first, b)
    decreases |run|
  {
    if run != [] {
      NextKeepsInv(s, isIp, run[0], first, b);
      RunKeepsInv(Next(s, isIp, run[0]), isIp, run[1..], first, b);
    }
  }

  /** A worker that has just started. */
  predicate Init(s: State) {
    s.ttl == 60 && s.cache == map[] && s.tasks == map[] && s.history == [] && s.hits == []
  }

  /** Over every interleaving of lookups, `setTtl` and `clear` the cache holds only addresses, and only for names. */
  lemma HoldsAddresses(s: State, isIp: IsIp, run: seq<Action>)
    requires Init(s) && Possible(s, isIp, run)
    ensures var s' := After(s, isIp, run);
            forall host :: host in s'.cache ==> !isIp(host) && host != "" && isIp(s'.cache[host].ip)
  {
    RunKeepsInv(s, isIp, run, 0, Bound(0, s.now, {}));
  }

  /**
    And whatever it served was the answer of a lookup of that name, begun less than the TTL of
    its end before.
   */
  lemma ServedIsRecent(s: State, isIp: IsIp, run: seq<Action>, i: nat)
    requires Init(s) && Possible(s, isIp, run) && i < |After(s, isIp, run).hits|
    ensures var s' := After(s, isIp, run);
            isIp(s'.hits[i].ip) && Recent(s'.history, Bound(0, s.now, {}), s'.hits[i].host, s'.hits[i].ip, s'.hits[i].at)
  {
    RunKeepsInv(s, isIp, run, 0, Bound(0, s.now, {}));
  }

  /**
    After `clear`, whatever is served comes from an answer that arrived after it; and that
    lookup had begun no earlier than the oldest one under way at the time.
   */
  lemma ClearForgets(s: State, isIp: IsIp, run: seq<Action>, i: nat, since: int)
    requires s.cache == map[] && AskingOk(s, isIp, Bound(|s.history|, since, {})) && Possible(s, isIp, run)
    requires |s.hits| <= i < |After(s, isIp, run).hits|
    ensures var s' := After(s, isIp, run);
            && isIp(s'.hits[i].ip)
            && Recent(s'.history, Bound(|s.history|, since, {}), s'.hits[i].host, s'.hits[i].ip, s'.hits[i].at)
  {
    RunKeepsInv(s, isIp, run, |s.hits|, Bound(|s.history|, since, {}));
  }

  /** The answer to hit `i` was given by a lookup that had not begun in state `s`. */
  predicate ByNewLookup(s: State, s': State, i: nat)
    requires i < |s'.hits|
  {
    exists j :: |s.history| <= j < |s'.history| && s'.history[j].task !in s.tasks
                && Returned(s'.history[j], s'.hits[i].host, s'.hits[i].ip, s'.hits[i].at)
  }

  /** Whatever happens next, what is served comes from lookups that have not begun yet. */
  ghost predicate FreshFromHere(s: State, isIp: IsIp) {
    forall run, i {:trigger ByNewLookup(s, After(s, isIp, run), i)} ::
      Possible(s, isIp, run) && |s.hits| <= i < |After(s, isIp, run).hits| ==> ByNewLookup(s, After(s, isIp, run), i)
  }

  /** Answer lookup `t`, and ask for the same name again while the answer is held. */
  function LateAnswer(s: State, t: TaskId, u: TaskId, ip: string): seq<Action>
    requires t in s.tasks && s.tasks[t].Asking?
  {
    [SetTtl(s.now - s.tasks[t].asked + 1), Finish(t, Some(ip)), Begin(u, s.tasks[t].host)]
  }

  /** A lookup that is under way when the cache is cleared still stores its answer. */
  lemma LateAnswerIsServed(s: State, isIp: IsIp, t: TaskId, u: TaskId, ip: string)
    requires t in s.tasks && s.tasks[t].Asking? && u !in s.tasks && isIp(ip)
    requires s.tasks[t].host != "" && !isIp(s.tasks[t].host)
    ensures var Asking(host, asked) := s.tasks[t];
            var run := LateAnswer(s, t, u, ip);
            && Possible(s, isIp, run)
            && var s' := After(s, isIp, run);
               && s'.hits == s.hits + [Hit(host, ip, s.now)]
               && s'.history == s.history + [Answered(t, host, ip, asked, s.now - asked + 1)]
  {
    var run := LateAnswer(s, t, u, ip);
    var s1 := Next(s, isIp, run[0]);
    var s2 := Next(s1, isIp, run[1]);
    var s3 := Next(s2, isIp, run[2]);
    LateAnswerStates(s, isIp, t, u, ip, s1, s2, s3);
    assert Possible(s3, isIp, []) && After(s3, isIp, []) == s3;
    RunStep(s2, isIp, run[2], []);
    RunStep(s1, isIp, run[1], [run[2]] + []);
    RunStep(s, isIp, run[0], [run[1]] + ([run[2]] + []));
    assert run == [run[0]] + ([run[1]] + ([run[2]] + []));
  }

  lemma LateAnswerStates(s: State, isIp: IsIp, t: TaskId, u: TaskId, ip: string, s1: State, s2: State, s3: State)
    requires t in s.tasks && s.tasks[t].Asking? && u !in s.tasks && isIp(ip)
    requires s.tasks[t].host != "" && !isIp(s.tasks[t].host)
    requires s1 == Next(s, isIp, SetTtl(s.now - s.tasks[t].asked + 1)) && s2 == Next(s1, isIp, Finish(t, Some(ip)))
    requires s3 == Next(s2, isIp, Begin(u, s.tasks[t].host))
    ensures var Asking(host, asked) := s.tasks[t];
            && s3.hits == s.hits + [Hit(host, ip, s.now)]
            && s3.history == s.history + [Answered(t, host, ip, asked, s.now - asked + 1)]
  {
  }

  lemma LateAnswerIsOld(s: State, isIp: IsIp, t: TaskId, ip: string)
    requires t in s.tasks && s.tasks[t].Asking? && isIp(ip)
    requires s.tasks[t].host != "" && !isIp(s.tasks[t].host)
    ensures !FreshFromHere(s, isIp)
  {
    var u := Unused(s.tasks);
    LateAnswerIsServed(s, isIp, t, u, ip);
    var run := LateAnswer(s, t, u, ip);
    assert !ByNewLookup(s, After(s, isIp, run), |s.hits|);
  }

  lemma NothingOldIsServed(s: State, isIp: IsIp, run: seq<Action>, i: nat)
    requires s.cache == map[] && (forall t :: t in s.tasks ==> !s.tasks[t].Asking?) && Possible(s, isIp, run)
    requires |s.hits| <= i < |After(s, isIp, run).hits|
    ensures ByNewLookup(s, After(s, isIp, run), i)
  {
    var b := Bound(|s.history|, s.now, s.tasks.Keys);
    RunKeepsInv(s, isIp, run, |s.hits|, b);
    var s' := After(s, isIp, run);
    var h := s'.hits[i];
    assert Recent(s'.history, b, h.host, h.ip, h.at);
    var j :| 0 <= j < |s'.history| && Within(s'.history, b, j) && Returned(s'.history[j], h.host, h.ip, h.at);
  }

  /**
    After `clear`, only lookups that begin afterwards are served from the cache if and only if
    none is under way.
   */
  lemma ClearExactly(s: State, isIp: IsIp, ip: string)
    requires s.cache == map[] && isIp(ip)
    requires forall t :: t in s.tasks && s.tasks[t].Asking? ==> s.tasks[t].host != "" && !isIp(s.tasks[t].host)
    ensures FreshFromHere(s, isIp) <==> forall t :: t in s.tasks ==> !s.tasks[t].Asking?
  {
    if t :| t in s.tasks && s.tasks[t].Asking? {
      LateAnswerIsOld(s, isIp, t, ip);
    } else {
      forall run, i | Possible(s, isIp, run) && |s.hits| <= i < |After(s, isIp, run).hits|
        ensures ByNewLookup(s, After(s, isIp, run), i)
      {
        NothingOldIsServed(s, isIp, run, i);
      }
    }
  }

  // ---------------------------------------------------------------- a stored answer is served

  /** A lookup that ends with a new address stores it, to expire one TTL after the clock was read. */
  lemma FinishExactly(s: State, isIp: IsIp, t: TaskId, answer: Option<string>, other: string)
    requires Enabled(s, Finish(t, answer)) && s.tasks[t].host != "" && !isIp(s.tasks[t].host) && other != s.tasks[t].host
    ensures var Asking(host, asked) := s.tasks[t];
            var s' := Next(s, isIp, Finish(t, answer));
            && s'.tasks[t] == Done(host, if answer.None? then host else answer.value)
            && (answer.Some? && answer.value != host && isIp(answer.value) ==>
                  host in s'.cache && s'.cache[host] == Entry(answer.value, asked + s.ttl))
            && (answer.None? || answer.value == host || !isIp(answer.value) ==> s'.cache == s.cache)
            && (other in s'.cache <==> other in s.cache) && (other in s.cache ==> s'.cache[other] == s.cache[other])
  {
  }

  /** A lookup is answered from the cache if and only if the entry has not expired, and then with its address. */
  lemma BeginExactly(s: State, isIp: IsIp, t: TaskId, host: string)
    requires Enabled(s, Begin(t, host)) && host != "" && !isIp(host)
    ensures Next(s, isIp, Begin(t, host)).tasks[t]
            == if host in s.cache && s.now < s.cache[host].expires then Done(host, s.cache[host].ip) else Asking(host, s.now)
  {
  }

  /** Neither cleared nor answered anew for this name. */
  predicate LeavesAlone(s: State, a: Action, host: string) {
    && !a.Clear?
    && (a.Finish? ==> a.task in s.tasks && s.tasks[a.task].Asking? && s.tasks[a.task].host != host)
  }

  predicate LeftAlone(s: State, isIp: IsIp, run: seq<Action>, host: string)
    requires Possible(s, isIp, run)
    decreases |run|
  {
    run == [] || (LeavesAlone(s, run[0], host) && LeftAlone(Next(s, isIp, run[0]), isIp, run[1..], host))
  }

  lemma {:induction false} EntryStays(s: State, isIp: IsIp, run: seq<Action>, host: string)
    requires Possible(s, isIp, run) && LeftAlone(s, isIp, run, host) && host in s.cache
    ensures host in After(s, isIp, run).cache && After(s, isIp, run).cache[host] == s.cache[host]
    decreases |run|
  {
    if run != [] {
      EntryStays(Next(s, isIp, run[0]), isIp, run[1..], host);
    }
  }

  /**
    An entry is served at every moment before it expires, and at none after, whatever other
    lookups and changes of the TTL come in between, unless it is cleared or replaced.
   */
  lemma EntryIsServed(s: State, isIp: IsIp, run: seq<Action>, host: string, u: TaskId)
    requires host != "" && !isIp(host) && host in s.cache
    requires Possible(s, isIp, run) && LeftAlone(s, isIp, run, host) && u !in After(s, isIp, run).tasks
    ensures var s' := After(s, isIp, run);
            Next(s', isIp, Begin(u, host)).tasks[u]
            == if s'.now < s.cache[host].expires then Done(host, s.cache[host].ip) else Asking(host, s'.now)
  {
    EntryStays(s, isIp, run, host);
    BeginExactly(After(s, isIp, run), isIp, u, host);
  }

  // ---------------------------------------------------------------- the class

  lemma SoundSince(cache: Table, history: seq<Answered>, isIp: IsIp, since: int, earlier: int)
    requires Sound(cache, history, isIp, Bound(0, since, {})) && earlier <= since
    ensures Sound(cache, history, isIp, Bound(0, earlier, {}))
  {
    forall host | host in cache
      ensures Vouched(history, Bound(0, earlier, {}), host, cache[host])
    {
      var i :| 0 <= i < |history| && Within(history, Bound(0, since, {}), i) && Justifies(history[i], host, cache[host]);
      assert Within(history, Bound(0, earlier, {}), i);
    }
  }

  /** Storing one more answer, whenever its lookup began. */
  lemma StoreAny(cache: Table, history: seq<Answered>, isIp: IsIp, since: int, a: Answered)
    requires Sound(cache, history, isIp, Bound(0, since, {})) && !isIp(a.host) && a.host != "" && isIp(a.ip)
    ensures Sound(cache[a.host := Entry(a.ip, a.at + a.ttl)], history + [a], isIp,
                  Bound(0, if a.at < since then a.at else since, {}))
  {
    var earlier := if a.at < since then a.at else since;
    SoundSince(cache, history, isIp, since, earlier);
    StoreKeepsSound(cache, history, isIp, Bound(0, earlier, {}), a);
  }

  /** An answer for this name, less than its TTL old. */
  predicate RecentAnswer(history: seq<Answered>, host: string, ip: string, now: int) {
    exists i :: 0 <= i < |history| && Returned(history[i], host, ip, now)
  }

  class Cache {
    const isIp: IsIp
    var cache: Table
    var ttl: int
    ghost var history: seq<Answered>  // every answer that was stored
    ghost var since: int              // no later than the first of their lookups

    ghost predicate Valid()
      reads this`cache, this`history, this`since
    {
      Sound(cache, history, isIp, Bound(0, since, {}))
    }

    constructor (isIp: IsIp)
      ensures Valid() && this.isIp == isIp && ttl == 60 && cache == map[]
    {
      this.isIp := isIp;
      cache, ttl, history, since := map[], 60, [], 0;
    }

    method SetTtl(seconds: int)
      requires Valid()
      modifies this`ttl
      ensures Valid() && ttl == seconds
    {
      ttl := seconds;
    }

    method Clear()
      requires Valid()
      modifies this`cache
      ensures Valid() && cache == map[]
    {
      cache := map[];
    }

    /** The part before the yield: what is returned without asking, a recent answer if it came from the cache. */
    method Start(host: string, now: int) returns (r: Option<string>)
      requires Valid()
      ensures r == Known(cache, isIp, host, now)
      ensures r.Some? && r.value != host ==> isIp(r.value) && RecentAnswer(history, host, r.value, now)
    {
      if host == "" || isIp(host) {
        return Some(host);
      }
      if host in cache && cache[host].expires > now {
        HeldIsRecent(cache, history, isIp, Bound(0, since, {}), host, now);
        return Some(cache[host].ip);
      }
      return None;
    }

    /** The part after it: an address is stored, to expire one TTL after the lookup began. */
    method Finish(host: string, asked: int, answer: Option<string>) returns (r: string)
      requires Valid() && host != "" && !isIp(host)
      modifies this`cache, this`history, this`since
      ensures Valid() && old(history) <= history
      ensures r == Direct(isIp, host, answer) && cache == Kept(old(cache), isIp, host, asked, ttl, answer)
    {
      if answer.None? {
        return host;
      }
      var ip := answer.value;
      if ip != host && isIp(ip) {
        ghost var stored := Answered(|history|, host, ip, asked, ttl);
        StoreAny(cache, history, isIp, since, stored);
        since := if asked < since then asked else since;
        history := history + [stored];
        cache := cache[host := Entry(ip, asked + ttl)];
      }
      return ip;
    }

    /**
      Both parts without interruption. Either the result is the uncached one, or it is an
      address that a lookup of the same host returned less than that lookup's TTL ago.
     */
    method Resolve(host: string, now: int, answer: Option<string>) returns (r: string)
      requires Valid()
      modifies this`cache, this`history, this`since
      ensures Valid() && old(history) <= history
      ensures r == Direct(isIp, host, answer) || (isIp(r) && RecentAnswer(old(history), host, r, now))
      ensures
        if host == "" || isIp(host) then r == host && cache == old(cache)
        else if host in old(cache) && now < old(cache)[host].expires then r == old(cache)[host].ip && cache == old(cache)
        else
          && r == (if answer.None? then host else answer.value)
          && cache == if r != host && isIp(r) then old(cache)[host := Entry(r, now + ttl)] else old(cache)
    {
      var known := Start(host, now);
      if known.Some? {
        return known.value;
      }
      r := Finish(host, now, answer);
    }
  }
}
