/**
 The registry of opened archives: a bounded cache in least-recently-used order, whose misses load
 outside the lock and check again before they insert.
 */
module Registry {
  import opened Wrappers

  const MAX_ID_LEN := 64

  type Id = string

  datatype ApiError = BadRequest | NotFound | Internal

  datatype Outcome<+T> = Got(value: T) | Failed(error: ApiError)

  predicate IdChar(c: char) {
    'a' <= c <= 'z' || 'A' <= c <= 'Z' || '0' <= c <= '9' || c == '_' || c == '-'
  }

  predicate ValidId(id: Id) {
    0 < |id| <= MAX_ID_LEN && forall i :: 0 <= i < |id| ==> IdChar(id[i])
  }

  /** A valid id is one component of a path, and not a special one. */
  lemma IdsAreNames(id: Id)
    requires ValidId(id)
    ensures |id| >= 1 && '/' !in id && '\\' !in id && '.' !in id && 0 as char !in id
  {}

  // ---------- The cache, most recently used first ----------

  type Cache<E> = seq<(Id, E)>

  function Keys<E>(c: Cache<E>): (ks: seq<Id>)
    ensures |ks| == |c| && forall i :: 0 <= i < |c| ==> ks[i] == c[i].0
  {
    seq(|c|, i requires 0 <= i < |c| => c[i].0)
  }

  predicate Distinct(ks: seq<Id>) {
    forall i, j :: 0 <= i < j < |ks| ==> ks[i] != ks[j]
  }

  function Find<E>(c: Cache<E>, id: Id): (e: Option<E>)
    ensures e.Some? <==> id in Keys(c)
  {
    if |c| == 0 then None
    else if c[0].0 == id then Some(c[0].1)
    else
      assert Keys(c) == [c[0].0] + Keys(c[1..]);
      Find(c[1..], id)
  }

  function Without<E>(c: Cache<E>, id: Id): Cache<E> {
    if |c| == 0 then []
    else if c[0].0 == id then Without(c[1..], id)
    else [c[0]] + Without(c[1..], id)
  }

  function Remove(ks: seq<Id>, id: Id): (r: seq<Id>)
    ensures id !in r
  {
    if |ks| == 0 then [] else if ks[0] == id then Remove(ks[1..], id) else [ks[0]] + Remove(ks[1..], id)
  }

  /** The entry moves to the front, if it is there. */
  function Touched<E>(c: Cache<E>, id: Id): Cache<E> {
    if Find(c, id).None? then c else [(id, Find(c, id).value)] + Without(c, id)
  }

  /**
   An entry that is cached already stays and wins. Otherwise the new one goes first, and the last one
   goes if there is no room.
   */
  function InsertedInto<E>(c: Cache<E>, capacity: nat, id: Id, entry: E): Cache<E>
    requires 0 < capacity
  {
    if Find(c, id).Some? then Touched(c, id)
    else [(id, entry)] + if |c| < capacity then c else c[..capacity - 1]
  }

  predicate Bounded<E>(c: Cache<E>, capacity: nat) {
    |c| <= capacity && Distinct(Keys(c))
  }

  class IndexRegistry<E> {
    const capacity: nat
    var cache: Cache<E>

    ghost predicate Valid()
      reads this
    {
      0 < capacity && Bounded(cache, capacity)
    }

    /** A capacity of zero is rounded up. */
    constructor (maxOpenArchives: nat)
      ensures Valid() && cache == []
      ensures capacity == if maxOpenArchives == 0 then 1 else maxOpenArchives
    {
      capacity := if maxOpenArchives == 0 then 1 else maxOpenArchives;
      cache := [];
    }

    method Lookup(id: Id) returns (r: Option<E>)
      requires Valid()
      modifies this`cache
      ensures Valid() && cache == Touched(old(cache), id)
      ensures r == Find(old(cache), id)
    {
      TouchKeeps(cache, id);
      r := Find(cache, id);
      if r.Some? {
        cache := [(id, r.value)] + Without(cache, id);
      }
    }

    method Insert(id: Id, entry: E) returns (r: E)
      requires Valid()
      modifies this`cache
      ensures Valid() && cache == InsertedInto(old(cache), capacity, id, entry)
      ensures r == if Find(old(cache), id).Some? then Find(old(cache), id).value else entry
    {
      InsertKeeps(cache, capacity, id, entry);
      var existing := Find(cache, id);
      if existing.Some? {
        cache := Touched(cache, id);
        return existing.value;
      }
      if |cache| == capacity {
        cache := cache[..capacity - 1];
      }
      cache := [(id, entry)] + cache;
      return entry;
    }

    /** One get with nothing else going on in between; `loaded` is what loading the archive would give. */
    method Get(id: Id, loaded: Outcome<E>) returns (r: Outcome<E>)
      requires Valid()
      modifies this`cache
      ensures Valid()
      ensures !ValidId(id) ==> r == Failed(BadRequest)
      ensures ValidId(id) && id in Keys(old(cache)) ==> r == Got(Find(old(cache), id).value)
      ensures ValidId(id) && id !in Keys(old(cache)) ==> r == loaded
      ensures r.Got? ==> Find(cache, id) == Some(r.value)
      ensures r.Failed? ==> cache == old(cache)
    {
      if !ValidId(id) {
        return Failed(BadRequest);
      }
      var hit := Lookup(id);
      FindTouched(old(cache), id);
      if hit.Some? {
        return Got(hit.value);
      }
      if loaded.Failed? {
        return loaded;
      }
      var entry := Insert(id, loaded.value);
      return Got(entry);
    }
  }

  lemma {:induction false} KeysWithout<E>(c: Cache<E>, id: Id)
    ensures Keys(Without(c, id)) == Remove(Keys(c), id)
  {
    if |c| > 0 {
      KeysWithout(c[1..], id);
      assert Keys(c)[1..] == Keys(c[1..]);
      if c[0].0 != id {
        assert Keys([c[0]] + Without(c[1..], id)) == [c[0].0] + Keys(Without(c[1..], id));
      }
    }
  }

  lemma {:induction false} RemoveAbsent(ks: seq<Id>, id: Id)
    requires id !in ks
    ensures Remove(ks, id) == ks
  {
    if |ks| > 0 {
      RemoveAbsent(ks[1..], id);
      assert ks == [ks[0]] + ks[1..];
    }
  }

  lemma {:induction false} RemoveKeepsDistinct(ks: seq<Id>, id: Id)
    requires Distinct(ks)
    ensures Distinct(Remove(ks, id)) && forall k :: k in Remove(ks, id) ==> k in ks
    ensures id in ks ==> |Remove(ks, id)| == |ks| - 1
  {
    if |ks| > 0 {
      assert Distinct(ks[1..]) by {
        assert forall i :: 0 <= i < |ks| - 1 ==> ks[1..][i] == ks[i + 1];
      }
      RemoveKeepsDistinct(ks[1..], id);
      assert ks[0] !in ks[1..];
      if ks[0] == id {
        RemoveAbsent(ks[1..], id);
      }
    }
  }

  lemma TouchKeeps<E>(c: Cache<E>, id: Id)
    requires Distinct(Keys(c))
    ensures Distinct(Keys(Touched(c, id))) && |Touched(c, id)| == |c|
  {
    hide Without, Find, Remove;
    KeysWithout(c, id);
    RemoveKeepsDistinct(Keys(c), id);
    if Find(c, id).Some? {
      assert Keys(Touched(c, id)) == [id] + Remove(Keys(c), id);
    }
  }

  lemma InsertKeeps<E>(c: Cache<E>, capacity: nat, id: Id, entry: E)
    requires 0 < capacity && Bounded(c, capacity)
    ensures Bounded(InsertedInto(c, capacity, id, entry), capacity)
  {
    hide Without, Find, Touched;
    TouchKeeps(c, id);
    if Find(c, id).None? {
      var kept := if |c| < capacity then c else c[..capacity - 1];
      assert Keys([(id, entry)] + kept) == [id] + Keys(kept);
      assert Keys(kept) == Keys(c)[..|kept|];
    }
  }

  lemma {:induction false} FindTouched<E>(c: Cache<E>, id: Id)
    ensures Find(Touched(c, id), id) == Find(c, id)
  {}

  // ---------- Gets that run side by side ----------

  /** A get between its locked steps. */
  datatype Pending<E> = Missed(id: Id) | Loaded(id: Id, entry: E)

  datatype State<E> = State(cache: Cache<E>, pending: map<nat, Pending<E>>)

  /** One atomic step of the get that thread `t` runs. */
  datatype Step<E> =
    | Look(t: nat, id: Id)      // locked lookup; a hit completes the get
    | Load(t: nat, entry: E)    // the archive has been loaded, outside the lock
    | GiveUp(t: nat)            // loading failed, and so does the get
    | Commit(t: nat)            // locked check and insert; completes the get

  predicate Enabled<E>(s: State<E>, step: Step<E>) {
    match step
    case Look(t, id) => t !in s.pending && ValidId(id)
    case Load(t, _) => t in s.pending && s.pending[t].Missed?
    case GiveUp(t) => t in s.pending && s.pending[t].Missed?
    case Commit(t) => t in s.pending && s.pending[t].Loaded?
  }

  function Apply<E>(s: State<E>, capacity: nat, step: Step<E>): State<E>
    requires 0 < capacity && Enabled(s, step)
  {
    match step
    case Look(t, id) =>
      State(Touched(s.cache, id), if Find(s.cache, id).Some? then s.pending else s.pending[t := Missed(id)])
    case Load(t, entry) => s.(pending := s.pending[t := Loaded(s.pending[t].id, entry)])
    case GiveUp(t) => s.(pending := s.pending - {t})
    case Commit(t) =>
      State(InsertedInto(s.cache, capacity, s.pending[t].id, s.pending[t].entry), s.pending - {t})
  }

  /** The id and entry with which this step completes a get, if it does. */
  function Completes<E>(s: State<E>, step: Step<E>): Option<(Id, E)>
    requires Enabled(s, step)
  {
    match step
    case Look(t, id) => if Find(s.cache, id).Some? then Some((id, Find(s.cache, id).value)) else None
    case Commit(t) =>
      var id := s.pending[t].id;
      Some((id, if Find(s.cache, id).Some? then Find(s.cache, id).value else s.pending[t].entry))
    case _ => None
  }

  /** These steps can be taken one after another from an empty registry. */
  predicate IsRun<E>(capacity: nat, steps: seq<Step<E>>)
    requires 0 < capacity
    decreases |steps|, 0
  {
    |steps| > 0 ==>
      && IsRun(capacity, steps[..|steps| - 1])
      && Enabled(After(capacity, steps[..|steps| - 1]), steps[|steps| - 1])
  }

  function After<E>(capacity: nat, steps: seq<Step<E>>): State<E>
    requires 0 < capacity && IsRun(capacity, steps)
    decreases |steps|, 1
  {
    if |steps| == 0 then State([], map[])
    else Apply(After(capacity, steps[..|steps| - 1]), capacity, steps[|steps| - 1])
  }

  lemma {:induction false} RunPrefix<E>(capacity: nat, steps: seq<Step<E>>, n: nat)
    requires 0 < capacity && IsRun(capacity, steps) && n <= |steps|
    ensures IsRun(capacity, steps[..n])
    ensures n < |steps| ==> && Enabled(After(capacity, steps[..n]), steps[n])
                            && IsRun(capacity, steps[..n + 1])
                            && After(capacity, steps[..n + 1]) == Apply(After(capacity, steps[..n]), capacity, steps[n])
    decreases |steps|
  {
    if n < |steps| {
      var shorter := steps[..|steps| - 1];
      RunPrefix(capacity, shorter, n);
      assert shorter[..n] == steps[..n];
      if n < |shorter| {
        assert shorter[..n + 1] == steps[..n + 1];
      } else {
        assert steps[..n + 1] == steps && steps[..n] == shorter;
      }
    } else {
      assert steps[..n] == steps;
    }
  }

  /** In every reachable state no id is cached twice, and the capacity is kept. */
  lemma {:induction false} AlwaysBounded<E>(capacity: nat, steps: seq<Step<E>>)
    requires 0 < capacity && IsRun(capacity, steps)
    ensures Bounded(After(capacity, steps).cache, capacity)
    decreases |steps|
  {
    if |steps| > 0 {
      var s, step := After(capacity, steps[..|steps| - 1]), steps[|steps| - 1];
      AlwaysBounded(capacity, steps[..|steps| - 1]);
      match step {
        case Look(t, id) => TouchKeeps(s.cache, id);
        case Commit(t) => InsertKeeps(s.cache, capacity, s.pending[t].id, s.pending[t].entry);
        case _ =>
      }
    }
  }

  /** A get that completes returns what is cached for its id at that very step, at the front. */
  lemma CompletedIsCached<E>(s: State<E>, capacity: nat, step: Step<E>)
    requires 0 < capacity && Enabled(s, step) && Completes(s, step).Some?
    ensures var after := Apply(s, capacity, step).cache;
            && |after| > 0 && after[0] == Completes(s, step).value
            && Find(after, Completes(s, step).value.0) == Some(Completes(s, step).value.1)
  {}

  lemma {:induction false} FindWithout<E>(c: Cache<E>, id: Id, other: Id)
    requires id != other
    ensures Find(Without(c, id), other) == Find(c, other)
  {
    if |c| > 0 {
      FindWithout(c[1..], id, other);
      if c[0].0 != id {
        assert ([c[0]] + Without(c[1..], id))[1..] == Without(c[1..], id);
      }
    }
  }

  lemma {:induction false} FindBehind<E>(first: (Id, E), c: Cache<E>, id: Id)
    ensures Find([first] + c, id) == if first.0 == id then Some(first.1) else Find(c, id)
  {
    assert ([first] + c)[1..] == c;
  }

  lemma {:induction false} FindFront<E>(c: Cache<E>, n: nat, id: Id)
    requires n <= |c| && Find(c[..n], id).Some?
    ensures Find(c[..n], id) == Find(c, id)
  {
    if n > 0 && c[0].0 != id {
      assert c[..n][1..] == c[1..][..n - 1];
      FindFront(c[1..], n - 1, id);
    }
  }

  /** A step leaves an entry that stays cached alone. */
  lemma {:induction false} StepKeepsEntry<E>(s: State<E>, capacity: nat, step: Step<E>, id: Id)
    requires 0 < capacity && Enabled(s, step)
    requires Find(s.cache, id).Some? && Find(Apply(s, capacity, step).cache, id).Some?
    ensures Find(Apply(s, capacity, step).cache, id) == Find(s.cache, id)
  {
    hide Without, Find;
    var c := s.cache;
    if step.Look? || step.Commit? {
      var touched := if step.Look? then step.id else s.pending[step.t].id;
      if Find(c, touched).Some? {
        FindBehind((touched, Find(c, touched).value), Without(c, touched), id);
        if id != touched {
          FindWithout(c, touched, id);
        }
      } else if step.Commit? {
        var kept := if |c| < capacity then c else c[..capacity - 1];
        FindBehind((touched, s.pending[step.t].entry), kept, id);
        if |c| >= capacity {
          FindFront(c, capacity - 1, id);
        }
      }
    }
  }

  /** Step `n` of the run drops this id from the cache. */
  predicate Evicts<E>(capacity: nat, steps: seq<Step<E>>, n: nat, id: Id)
    requires 0 < capacity && IsRun(capacity, steps) && n < |steps|
  {
    RunPrefix(capacity, steps, n);
    && Find(After(capacity, steps[..n]).cache, id).Some?
    && Find(After(capacity, steps[..n + 1]).cache, id).None?
  }

  /** The get that step `n` of the run completes. */
  function CompletedAt<E>(capacity: nat, steps: seq<Step<E>>, n: nat): Option<(Id, E)>
    requires 0 < capacity && IsRun(capacity, steps) && n < |steps|
  {
    RunPrefix(capacity, steps, n);
    Completes(After(capacity, steps[..n]), steps[n])
  }

  lemma {:induction false} StaysCached<E>(capacity: nat, steps: seq<Step<E>>, i: nat, n: nat, id: Id, e: E)
    requires 0 < capacity && IsRun(capacity, steps) && i < n <= |steps|
    requires CompletedAt(capacity, steps, i) == Some((id, e))
    requires forall m :: i < m < n ==> !Evicts(capacity, steps, m, id)
    ensures IsRun(capacity, steps[..n]) && Find(After(capacity, steps[..n]).cache, id) == Some(e)
    decreases n
  {
    hide After, IsRun, Apply, Completes, Enabled, Find;
    RunPrefix(capacity, steps, n - 1);
    if n == i + 1 {
      CompletedIsCached(After(capacity, steps[..i]), capacity, steps[i]);
    } else {
      StaysCached(capacity, steps, i, n - 1, id, e);
      assert !Evicts(capacity, steps, n - 1, id);
      StepKeepsEntry(After(capacity, steps[..n - 1]), capacity, steps[n - 1], id);
    }
  }

  /**
   Two gets of the same id return the same entry if the id is not dropped from the cache between them,
   whatever other gets run meanwhile, and even when both of them loaded the archive.
   */
  lemma {:induction false} SameEntry<E>(capacity: nat, steps: seq<Step<E>>, i: nat, j: nat, id: Id, a: E, b: E)
    requires 0 < capacity && IsRun(capacity, steps) && i < j < |steps|
    requires CompletedAt(capacity, steps, i) == Some((id, a)) && CompletedAt(capacity, steps, j) == Some((id, b))
    requires forall m :: i < m < j ==> !Evicts(capacity, steps, m, id)
    ensures a == b
  {
    RunPrefix(capacity, steps, j);
    StaysCached(capacity, steps, i, j, id, a);
  }

  // ---------- What is cached, in terms of the gets that completed ----------

  /** The ids of all gets that completed, in order. */
  function History<E>(capacity: nat, steps: seq<Step<E>>): seq<Id>
    requires 0 < capacity && IsRun(capacity, steps)
  {
    if |steps| == 0 then []
    else
      var before := steps[..|steps| - 1];
      var done := Completes(After(capacity, before), steps[|steps| - 1]);
      History(capacity, before) + if done.Some? then [done.value.0] else []
  }

  /** All ids of a history, each once, the most recent first. */
  function Recent(history: seq<Id>): seq<Id> {
    if |history| == 0 then []
    else [history[|history| - 1]] + Remove(Recent(history[..|history| - 1]), history[|history| - 1])
  }

  function Take(ks: seq<Id>, n: nat): seq<Id> {
    if |ks| <= n then ks else ks[..n]
  }

  lemma Joined(a: seq<Id>, b: seq<Id>, c: seq<Id>)
    ensures a + b + c == a + (b + c)
  {}

  lemma {:induction false} RemoveHead(first: Id, ks: seq<Id>, id: Id)
    ensures Remove([first] + ks, id) == if first == id then Remove(ks, id) else [first] + Remove(ks, id)
  {
    assert ([first] + ks)[1..] == ks;
  }

  lemma DistinctRest(ks: seq<Id>)
    requires |ks| > 0 && Distinct(ks)
    ensures Distinct(ks[1..]) && ks[0] !in ks[1..]
  {
    assert forall i :: 0 <= i < |ks| - 1 ==> ks[1..][i] == ks[i + 1];
  }

  lemma TakeHead(first: Id, ks: seq<Id>, n: nat)
    ensures Take([first] + ks, n + 1) == [first] + Take(ks, n)
  {}

  /** Removing an id that is among the first `n` is the same before and after cutting. */
  lemma {:induction false} RemoveThenTake(ks: seq<Id>, id: Id, n: nat)
    requires Distinct(ks) && 0 < n
    ensures if id in Take(ks, n) then Remove(Take(ks, n), id) == Take(Remove(ks, id), n - 1)
            else Take(Take(ks, n), n - 1) == Take(Remove(ks, id), n - 1)
  {
    if |ks| > 0 {
      var first, rest := ks[0], ks[1..];
      assert ks == [first] + rest;
      DistinctRest(ks);
      TakeHead(first, rest, n - 1);
      RemoveHead(first, rest, id);
      RemoveHead(first, Take(rest, n - 1), id);
      if first == id {
        hide Remove;
        RemoveAbsent(rest, id);
        RemoveAbsent(Take(rest, n - 1), id);
      } else if n > 1 {
        hide Remove, Take, Distinct;
        RemoveThenTake(rest, id, n - 1);
        TakeHead(first, Take(rest, n - 1), n - 2);
        TakeHead(first, Remove(rest, id), n - 2);
      }
    }
  }

  lemma {:induction false} RecentDistinct(history: seq<Id>)
    ensures Distinct(Recent(history))
  {
    if |history| > 0 {
      RecentDistinct(history[..|history| - 1]);
      RemoveKeepsDistinct(Recent(history[..|history| - 1]), history[|history| - 1]);
    }
  }

  /** Completing a get puts its id first and keeps the others in order, up to the capacity. */
  lemma CompletionReorders<E>(s: State<E>, capacity: nat, step: Step<E>)
    requires 0 < capacity && Enabled(s, step) && Bounded(s.cache, capacity)
    ensures var keys, after := Keys(s.cache), Keys(Apply(s, capacity, step).cache);
            match Completes(s, step)
            case None => after == keys
            case Some(done) =>
              after == [done.0] + if done.0 in keys then Remove(keys, done.0) else Take(keys, capacity - 1)
  {
    hide Without, Remove, Find;
    var c := s.cache;
    if Completes(s, step).Some? {
      var id := Completes(s, step).value.0;
      KeysWithout(c, id);
      var after := Apply(s, capacity, step).cache;
      if Find(c, id).Some? {
        assert after == [(id, Find(c, id).value)] + Without(c, id);
        assert Keys(after) == [id] + Keys(Without(c, id));
      } else {
        var kept := if |c| < capacity then c else c[..capacity - 1];
        assert Keys(after) == [id] + Keys(kept);
        assert Keys(kept) == Take(Keys(c), capacity - 1);
      }
    }
  }

  /** In every reachable state the cached ids are the most recently completed ones, in that order. */
  lemma {:induction false} CachedAreMostRecent<E>(capacity: nat, steps: seq<Step<E>>)
    requires 0 < capacity && IsRun(capacity, steps)
    ensures Keys(After(capacity, steps).cache) == Take(Recent(History(capacity, steps)), capacity)
    decreases |steps|
  {
    hide Apply, Enabled, Completes, Remove, Distinct;
    if |steps| > 0 {
      var before, step := steps[..|steps| - 1], steps[|steps| - 1];
      var s, h := After(capacity, before), History(capacity, before);
      CachedAreMostRecent(capacity, before);
      AlwaysBounded(capacity, before);
      CompletionReorders(s, capacity, step);
      var done := Completes(s, step);
      if done.Some? {
        var id := done.value.0;
        assert History(capacity, steps) == h + [id];
        assert (h + [id])[..|h|] == h;
        RecentDistinct(h);
        RemoveThenTake(Recent(h), id, capacity);
        assert Take([id] + Remove(Recent(h), id), capacity) == [id] + Take(Remove(Recent(h), id), capacity - 1);
      } else {
        assert History(capacity, steps) == h;
      }
    }
  }

  // ---------- How long an id stays cached ----------

  /** The different ids in a history. */
  function Ids(history: seq<Id>): set<Id> {
    set id | id in history
  }

  /** The id of the get that step `n` completes, if it does. */
  function Done<E>(capacity: nat, steps: seq<Step<E>>, n: nat): seq<Id>
    requires 0 < capacity && IsRun(capacity, steps) && n < |steps|
  {
    var done := CompletedAt(capacity, steps, n);
    if done.Some? then [done.value.0] else []
  }

  /** The ids of the gets that complete in steps `i` up to `n`. */
  function Since<E>(capacity: nat, steps: seq<Step<E>>, i: nat, n: nat): seq<Id>
    requires 0 < capacity && IsRun(capacity, steps) && i <= n <= |steps|
    decreases n
  {
    if i == n then [] else Since(capacity, steps, i, n - 1) + Done(capacity, steps, n - 1)
  }

  lemma {:induction false} HistoryStep<E>(capacity: nat, steps: seq<Step<E>>, n: nat)
    requires 0 < capacity && IsRun(capacity, steps) && n < |steps|
    ensures IsRun(capacity, steps[..n]) && IsRun(capacity, steps[..n + 1])
    ensures History(capacity, steps[..n + 1]) == History(capacity, steps[..n]) + Done(capacity, steps, n)
  {
    hide IsRun, Completes, After;
    RunPrefix(capacity, steps, n);
    assert steps[..n + 1][..n] == steps[..n];
  }

  lemma {:induction false} NothingSince<E>(capacity: nat, steps: seq<Step<E>>, n: nat)
    requires 0 < capacity && IsRun(capacity, steps) && n <= |steps|
    ensures Since(capacity, steps, n, n) == []
  {}

  lemma SinceStep<E>(capacity: nat, steps: seq<Step<E>>, i: nat, n: nat)
    requires 0 < capacity && IsRun(capacity, steps) && i < n <= |steps|
    ensures Since(capacity, steps, i, n) == Since(capacity, steps, i, n - 1) + Done(capacity, steps, n - 1)
  {
    hide IsRun, Done;
  }

  lemma {:induction false} HistorySince<E>(capacity: nat, steps: seq<Step<E>>, i: nat, n: nat)
    requires 0 < capacity && IsRun(capacity, steps) && i <= n <= |steps|
    ensures IsRun(capacity, steps[..i]) && IsRun(capacity, steps[..n])
    ensures History(capacity, steps[..n]) == History(capacity, steps[..i]) + Since(capacity, steps, i, n)
    decreases n
  {
    hide IsRun, Done, History, Since, After, Apply, Enabled;
    assert IsRun(capacity, steps[..i]) && IsRun(capacity, steps[..n]) by {
      RunPrefix(capacity, steps, n);
      RunPrefix(capacity, steps, i);
    }
    if i < n {
      SinceStep(capacity, steps, i, n);
      HistorySince(capacity, steps, i, n - 1);
      HistoryStep(capacity, steps, n - 1);
      Joined(History(capacity, steps[..i]), Since(capacity, steps, i, n - 1), Done(capacity, steps, n - 1));
    } else {
      NothingSince(capacity, steps, n);
    }
  }

  lemma {:induction false} InHistory<E>(capacity: nat, steps: seq<Step<E>>, i: nat, n: nat, id: Id) returns (m: nat)
    requires 0 < capacity && IsRun(capacity, steps) && i <= n <= |steps| && id in Since(capacity, steps, i, n)
    ensures i <= m < n && CompletedAt(capacity, steps, m).Some? && CompletedAt(capacity, steps, m).value.0 == id
    decreases n
  {
    hide IsRun, CompletedAt;
    if id in Done(capacity, steps, n - 1) {
      m := n - 1;
    } else {
      m := InHistory(capacity, steps, i, n - 1, id);
    }
  }

  lemma IdsAppend(a: seq<Id>, b: seq<Id>)
    ensures Ids(a + b) == Ids(a) + Ids(b)
  {}

  /** Looking at a part of the steps finds no other ids. */
  lemma {:induction false} SincePart<E>(capacity: nat, steps: seq<Step<E>>, i: nat, m: nat, n: nat, end: nat)
    requires 0 < capacity && IsRun(capacity, steps) && i <= m <= n <= end <= |steps|
    ensures Ids(Since(capacity, steps, m, n)) <= Ids(Since(capacity, steps, i, end))
    decreases end
  {
    hide IsRun, Done, Ids;
    if n < end {
      SincePart(capacity, steps, i, m, n, end - 1);
      IdsAppend(Since(capacity, steps, i, end - 1), Done(capacity, steps, end - 1));
    } else if m < n {
      SincePart(capacity, steps, i, m, n - 1, n - 1);
      IdsAppend(Since(capacity, steps, i, n - 1), Done(capacity, steps, n - 1));
      IdsAppend(Since(capacity, steps, m, n - 1), Done(capacity, steps, n - 1));
    } else {
      NothingSince(capacity, steps, n);
      assert Ids([]) == {} by {
        NoIds();
      }
    }
  }

  lemma NoIds()
    ensures Ids([]) == {}
  {}

  lemma {:induction false} RemoveHolds(ks: seq<Id>, id: Id)
    ensures forall k :: k in Remove(ks, id) <==> k in ks && k != id
  {
    if |ks| > 0 {
      RemoveHolds(ks[1..], id);
      assert ks == [ks[0]] + ks[1..];
    }
  }

  /** `Recent` lists every id of the history once. */
  lemma {:induction false} RecentIds(history: seq<Id>)
    ensures forall id :: id in Recent(history) <==> id in history
    ensures |Recent(history)| == |Ids(history)|
  {
    if |history| > 0 {
      var front, last := history[..|history| - 1], history[|history| - 1];
      RecentIds(front);
      RecentDistinct(front);
      RemoveHolds(Recent(front), last);
      RemoveKeepsDistinct(Recent(front), last);
      assert history == front + [last];
      assert Ids(history) == Ids(front) + {last};
      if last !in front {
        RemoveAbsent(Recent(front), last);
      }
    }
  }

  lemma {:induction false} RemoveSplit(xs: seq<Id>, ys: seq<Id>, id: Id)
    ensures Remove(xs + ys, id) == Remove(xs, id) + Remove(ys, id)
  {
    if |xs| == 0 {
      assert xs + ys == ys && Remove(xs, id) == [];
    } else {
      hide Remove;
      RemoveSplit(xs[1..], ys, id);
      assert xs == [xs[0]] + xs[1..];
      Joined([xs[0]], xs[1..], ys);
      RemoveHead(xs[0], xs[1..] + ys, id);
      RemoveHead(xs[0], xs[1..], id);
      Joined([xs[0]], Remove(xs[1..], id), Remove(ys, id));
    }
  }

  lemma {:induction false} RecentStep(history: seq<Id>, last: Id)
    ensures Recent(history + [last]) == [last] + Remove(Recent(history), last)
  {
    assert (history + [last])[..|history|] == history;
  }

  /** After an id, the ids that came since are more recent than it, and no others. */
  lemma {:induction false} RecentSince(history: seq<Id>, id: Id, more: seq<Id>) returns (rest: seq<Id>)
    requires id !in more
    ensures Recent(history + [id] + more) == Recent(more) + [id] + rest
    decreases |more|
  {
    if |more| == 0 {
      rest := Remove(Recent(history), id);
      assert history + [id] + more == history + [id];
      RecentStep(history, id);
    } else {
      hide Recent;
      var front, last := more[..|more| - 1], more[|more| - 1];
      var before := RecentSince(history, id, front);
      rest := Remove(before, last);
      assert more == front + [last] && history + [id] + more == history + [id] + front + [last];
      RecentStep(history + [id] + front, last);
      RecentStep(front, last);
      RemoveSplit(Recent(front) + [id], before, last);
      RemoveSplit(Recent(front), [id], last);
      assert Remove([id], last) == [id];
      hide Remove;
      Joined([last], Remove(Recent(front), last), [id]);
      Joined([last], Remove(Recent(front), last) + [id], rest);
    }
  }

  /** Which ids a cut keeps. */
  lemma TakeKeeps(front: seq<Id>, id: Id, rest: seq<Id>, n: nat)
    requires Distinct(front + [id] + rest)
    ensures id in Take(front + [id] + rest, n) <==> |front| < n
  {
    var ks := front + [id] + rest;
    assert ks[|front|] == id;
    if |front| < n {
      assert Take(ks, n)[|front|] == id;
    }
  }

  /** An id is among the `n` most recent ones if fewer than `n` others have come since. */
  lemma {:induction false} AmongRecent(history: seq<Id>, id: Id, more: seq<Id>, n: nat)
    requires id !in more
    ensures id in Take(Recent(history + [id] + more), n) <==> |Ids(more)| < n
  {
    hide Recent, Take, Distinct, Ids;
    RecentDistinct(history + [id] + more);
    RecentIds(more);
    var rest := RecentSince(history, id, more);
    TakeKeeps(Recent(more), id, rest, n);
  }

  /**
   An id that was completed and not again since is cached exactly as long as gets of fewer than
   `capacity` different other ids have completed.
   */
  lemma {:induction false} CachedWhile<E>(capacity: nat, steps: seq<Step<E>>, i: nat, n: nat, id: Id)
    requires 0 < capacity && IsRun(capacity, steps) && i < n <= |steps|
    requires CompletedAt(capacity, steps, i).Some? && CompletedAt(capacity, steps, i).value.0 == id
    requires id !in Since(capacity, steps, i + 1, n)
    ensures IsRun(capacity, steps[..n])
    ensures Find(After(capacity, steps[..n]).cache, id).Some?
            <==> |Ids(Since(capacity, steps, i + 1, n))| < capacity
  {
    hide IsRun, CompletedAt, After, Recent, Distinct, Take, Find, History, Ids, Since, Keys;
    RunPrefix(capacity, steps, n);
    RunPrefix(capacity, steps, i + 1);
    HistoryStep(capacity, steps, i);
    HistorySince(capacity, steps, i + 1, n);
    CachedAreMostRecent(capacity, steps[..n]);
    AmongRecent(History(capacity, steps[..i]), id, Since(capacity, steps, i + 1, n), capacity);
  }

  /** The same when the id may have been completed again in between, in one direction. */
  lemma {:induction false} StillCached<E>(capacity: nat, steps: seq<Step<E>>, i: nat, n: nat, id: Id)
    requires 0 < capacity && IsRun(capacity, steps) && i < n <= |steps|
    requires CompletedAt(capacity, steps, i).Some? && CompletedAt(capacity, steps, i).value.0 == id
    requires |Ids(Since(capacity, steps, i + 1, n)) - {id}| < capacity
    ensures IsRun(capacity, steps[..n]) && Find(After(capacity, steps[..n]).cache, id).Some?
    decreases n - i
  {
    hide IsRun, CompletedAt, After, Find, Since;
    var ids := Ids(Since(capacity, steps, i + 1, n));
    if id in Since(capacity, steps, i + 1, n) {
      var m := InHistory(capacity, steps, i + 1, n, id);
      SincePart(capacity, steps, i + 1, m + 1, n, n);
      Fewer(Ids(Since(capacity, steps, m + 1, n)) - {id}, ids - {id});
      StillCached(capacity, steps, m, n, id);
    } else {
      assert ids - {id} == ids;
      CachedWhile(capacity, steps, i, n, id);
    }
  }

  lemma {:induction false} Fewer(a: set<Id>, b: set<Id>)
    requires a <= b
    ensures |a| <= |b|
  {
    assert b == a + (b - a);
  }

  /**
   Two gets of the same id return the same entry if gets of fewer than `capacity` different other ids
   complete between them, whatever the interleaving, and even when both of them loaded the archive.
   */
  lemma {:induction false} SameEntryWithin<E>(capacity: nat, steps: seq<Step<E>>, i: nat, j: nat, id: Id, a: E, b: E)
    requires 0 < capacity && IsRun(capacity, steps) && i < j < |steps|
    requires CompletedAt(capacity, steps, i) == Some((id, a)) && CompletedAt(capacity, steps, j) == Some((id, b))
    requires |Ids(Since(capacity, steps, i + 1, j)) - {id}| < capacity
    ensures a == b
  {
    hide IsRun, CompletedAt, After, Find, Since;
    forall m | i < m < j
      ensures !Evicts(capacity, steps, m, id)
    {
      SincePart(capacity, steps, i + 1, i + 1, m + 1, j);
      Fewer(Ids(Since(capacity, steps, i + 1, m + 1)) - {id}, Ids(Since(capacity, steps, i + 1, j)) - {id});
      StillCached(capacity, steps, i, m + 1, id);
    }
    SameEntry(capacity, steps, i, j, id, a, b);
  }
}
