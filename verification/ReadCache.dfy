/** Generation-keyed read cache of one business, with readers and writers interleaved freely.

    A list read takes the generation, probes the cache under it, and on a miss runs its statements,
    each against whatever is committed at that moment, and stores the page under the generation it
    took at the start.  A catalog or purchase write commits and then bumps the generation.  Two
    other kinds of write exist: silent ones never bump, and a stock movement bumps before its
    caller commits.  Entries may vanish at any moment (expiry, eviction, invalidation). */
module ReadCache {

  /** The in-process counters, one per business. */
  class GenerationCounters {
    var byBusiness: map<string, nat>

    function Current(business: string): nat
      reads this
    {
      if business in byBusiness then byBusiness[business] else 0
    }

    constructor ()
      ensures byBusiness == map[]
    {
      byBusiness := map[];
    }

    method Bump(business: string)
      modifies this
      ensures Current(business) == old(Current(business)) + 1
      ensures forall other :: other != business ==> Current(other) == old(Current(other))
    {
      byBusiness := byBusiness[business := Current(business) + 1];
    }
  }

  /** A page and the versions of the data that its statements saw. */
  datatype Entry<P> = Entry(page: P, seen: seq<nat>)

  datatype Reader<Q, P> =
    | Asked(gen: nat, query: Q)
    | Reading(gen: nat, query: Q, seen: seq<nat>)
    | Answered(gen: nat, query: Q, seen: seq<nat>, page: P)

  datatype Writer =
    | MustBump(version: nat)    // committed, has not bumped yet
    | MustCommit                // bumped, its caller has not committed yet
    | Finished(version: nat, bumpedLast: bool)

  /** `versions` holds every committed state of the data, oldest first.  `floors[g]` records, for the
      statement of the guarantees only, the newest version at the moment generation `g` began. */
  datatype State<D, Q(==), P> = State(
    versions: seq<D>,
    gen: nat,
    floors: seq<nat>,
    cache: map<(nat, Q), Entry<P>>,
    readers: map<nat, Reader<Q, P>>,
    writers: map<nat, Writer>)

  datatype Action<D, Q(==)> =
    | Commit(w: nat, data: D)         // ordinary write: commit first ...
    | Bump(w: nat)                    // ... then bump
    | BumpFirst(w: nat)               // stock movement: bump first ...
    | LateCommit(w: nat, data: D)     // ... the caller commits later
    | SilentCommit(data: D)           // a write that never bumps
    | Ask(r: nat, query: Q)           // a list read begins by taking the generation
    | Probe(r: nat)
    | Select(r: nat)                  // one statement of the read
    | Store(r: nat)
    | Evict(keys: set<(nat, Q)>)

  ghost function Initial<D, Q, P>(data: D): State<D, Q, P> {
    State([data], 0, [0], map[], map[], map[])
  }

  ghost function Newest<D, Q, P>(s: State<D, Q, P>): nat {
    if |s.versions| == 0 then 0 else |s.versions| - 1
  }

  ghost function Bumped<D, Q, P>(s: State<D, Q, P>): State<D, Q, P> {
    s.(gen := s.gen + 1, floors := s.floors + [Newest(s)])
  }

  /** What the statements of a read saw. */
  ghost function Contents<D>(versions: seq<D>, seen: seq<nat>): seq<D>
    requires forall v :: v in seen ==> v < |versions|
  {
    seq(|seen|, i requires 0 <= i < |seen| => assert seen[i] in seen; versions[seen[i]])
  }

  /** One atomic step; a step that is not possible leaves the state alone.  `read` computes the page
      of a query from what its statements return. */
  ghost function Next<D, Q, P>(s: State<D, Q, P>, a: Action<D, Q>, read: (Q, seq<D>) -> P): State<D, Q, P> {
    match a
    case Commit(w, data) =>
      if w in s.writers then s
      else s.(versions := s.versions + [data], writers := s.writers[w := MustBump(|s.versions|)])
    case Bump(w) =>
      if w in s.writers && s.writers[w].MustBump?
      then Bumped(s).(writers := s.writers[w := Finished(s.writers[w].version, true)]) else s
    case BumpFirst(w) =>
      if w in s.writers then s else Bumped(s).(writers := s.writers[w := MustCommit])
    case LateCommit(w, data) =>
      if w in s.writers && s.writers[w].MustCommit?
      then s.(versions := s.versions + [data], writers := s.writers[w := Finished(|s.versions|, false)]) else s
    case SilentCommit(data) => s.(versions := s.versions + [data])
    case Ask(r, query) =>
      if r in s.readers then s else s.(readers := s.readers[r := Asked(s.gen, query)])
    case Probe(r) =>
      if r in s.readers && s.readers[r].Asked? then
        var Asked(gen, query) := s.readers[r];
        if (gen, query) in s.cache then
          var Entry(page, seen) := s.cache[(gen, query)];
          s.(readers := s.readers[r := Answered(gen, query, seen, page)])
        else s.(readers := s.readers[r := Reading(gen, query, [])])
      else s
    case Select(r) =>
      if r in s.readers && s.readers[r].Reading? then
        var Reading(gen, query, seen) := s.readers[r];
        s.(readers := s.readers[r := Reading(gen, query, seen + [Newest(s)])])
      else s
    case Store(r) =>
      if r in s.readers && s.readers[r].Reading? && (forall v :: v in s.readers[r].seen ==> v < |s.versions|) then
        var Reading(gen, query, seen) := s.readers[r];
        var page := read(query, Contents(s.versions, seen));
        s.(cache := s.cache[(gen, query) := Entry(page, seen)],
           readers := s.readers[r := Answered(gen, query, seen, page)])
      else s
    case Evict(keys) => s.(cache := s.cache - keys)
  }

  ghost function Run<D, Q, P>(s: State<D, Q, P>, actions: seq<Action<D, Q>>, read: (Q, seq<D>) -> P): State<D, Q, P>
    decreases |actions|
  {
    if actions == [] then s
    else Next(Run(s, actions[..|actions| - 1], read), actions[|actions| - 1], read)
  }

  // ----- invariant -----

  /** All of `seen` are versions that exist and are no older than the floor of generation `gen`. */
  ghost predicate SeenSince<D, Q, P>(s: State<D, Q, P>, gen: nat, seen: seq<nat>) {
    && gen < |s.floors|
    && forall v :: v in seen ==> s.floors[gen] <= v < |s.versions|
  }

  ghost predicate EntryOk<D, Q, P>(s: State<D, Q, P>, key: (nat, Q), e: Entry<P>, read: (Q, seq<D>) -> P) {
    SeenSince(s, key.0, e.seen) && e.page == read(key.1, Contents(s.versions, e.seen))
  }

  ghost predicate ReaderOk<D, Q, P>(s: State<D, Q, P>, r: Reader<Q, P>, read: (Q, seq<D>) -> P) {
    match r
    case Asked(gen, _) => SeenSince(s, gen, [])
    case Reading(gen, _, seen) => SeenSince(s, gen, seen)
    case Answered(gen, query, seen, page) => SeenSince(s, gen, seen) && page == read(query, Contents(s.versions, seen))
  }

  ghost predicate WriterOk<D, Q, P>(s: State<D, Q, P>, w: Writer)
    requires s.gen < |s.floors|
  {
    match w
    case MustBump(version) => version < |s.versions|
    case MustCommit => true
    case Finished(version, bumpedLast) => version < |s.versions| && (bumpedLast ==> version <= s.floors[s.gen])
  }

  ghost predicate FloorsOk<D, Q, P>(s: State<D, Q, P>) {
    && |s.versions| > 0 && |s.floors| == s.gen + 1
    && (forall g :: 0 <= g < |s.floors| ==> s.floors[g] <= Newest(s))
    && (forall g :: 0 < g < |s.floors| ==> s.floors[g - 1] <= s.floors[g])
  }

  ghost predicate Inv<D, Q, P>(s: State<D, Q, P>, read: (Q, seq<D>) -> P) {
    && FloorsOk(s)
    && (forall key :: key in s.cache ==> EntryOk(s, key, s.cache[key], read))
    && (forall r :: r in s.readers ==> ReaderOk(s, s.readers[r], read))
    && (forall w :: w in s.writers ==> WriterOk(s, s.writers[w]))
  }

  /** The past is fixed: versions and floors only grow at the end. */
  ghost predicate Grows<D, Q, P>(s: State<D, Q, P>, t: State<D, Q, P>) {
    && s.versions <= t.versions && s.floors <= t.floors
    && forall r :: r in s.readers ==> r in t.readers && t.readers[r].gen == s.readers[r].gen && t.readers[r].query == s.readers[r].query
  }

  lemma ContentsGrow<D>(versions: seq<D>, more: seq<D>, seen: seq<nat>)
    requires forall v :: v in seen ==> v < |versions|
    ensures Contents(versions + more, seen) == Contents(versions, seen)
  {
    forall i | 0 <= i < |seen|
      ensures Contents(versions + more, seen)[i] == Contents(versions, seen)[i]
    {
      assert seen[i] in seen;
    }
  }

  /** What held of entries, readers and answers keeps holding when the past is extended. */
  lemma PastKept<D, Q, P>(s: State<D, Q, P>, t: State<D, Q, P>, read: (Q, seq<D>) -> P)
    requires Inv(s, read)
    requires s.versions <= t.versions && s.floors <= t.floors
    ensures forall key :: key in s.cache ==> EntryOk(t, key, s.cache[key], read)
    ensures forall r :: r in s.readers ==> ReaderOk(t, s.readers[r], read)
  {
    assert t.versions == s.versions + t.versions[|s.versions|..];
    forall key | key in s.cache
      ensures EntryOk(t, key, s.cache[key], read)
    {
      assert EntryOk(s, key, s.cache[key], read);
      ContentsGrow(s.versions, t.versions[|s.versions|..], s.cache[key].seen);
    }
    forall r | r in s.readers
      ensures ReaderOk(t, s.readers[r], read)
    {
      assert ReaderOk(s, s.readers[r], read);
      if s.readers[r].Answered? {
        ContentsGrow(s.versions, t.versions[|s.versions|..], s.readers[r].seen);
      }
    }
  }

  lemma FloorsRise<D, Q, P>(s: State<D, Q, P>, g: nat, h: nat)
    requires FloorsOk(s) && g <= h < |s.floors|
    ensures s.floors[g] <= s.floors[h]
    decreases h
  {
    if g < h {
      FloorsRise(s, g, h - 1);
    }
  }

  lemma InitialInv<D, Q, P>(data: D, read: (Q, seq<D>) -> P)
    ensures Inv(Initial<D, Q, P>(data), read)
  {
  }

  lemma WritersKept<D, Q, P>(s: State<D, Q, P>, a: Action<D, Q>, read: (Q, seq<D>) -> P)
    requires FloorsOk(s) && forall w :: w in s.writers ==> WriterOk(s, s.writers[w])
    requires a.Commit? || a.Bump? || a.BumpFirst? || a.LateCommit? || a.SilentCommit? || a.Evict?
    ensures var t := Next(s, a, read); FloorsOk(t) && forall w :: w in t.writers ==> WriterOk(t, t.writers[w])
  {
    var t := Next(s, a, read);
    forall w | w in t.writers
      ensures WriterOk(t, t.writers[w])
    {
      if w in s.writers {
        assert WriterOk(s, s.writers[w]);
      }
    }
  }

  lemma WriteStepInv<D, Q, P>(s: State<D, Q, P>, a: Action<D, Q>, read: (Q, seq<D>) -> P)
    requires Inv(s, read)
    requires a.Commit? || a.Bump? || a.BumpFirst? || a.LateCommit? || a.SilentCommit? || a.Evict?
    ensures Inv(Next(s, a, read), read) && Grows(s, Next(s, a, read))
  {
    PastKept(s, Next(s, a, read), read);
    WritersKept(s, a, read);
  }

  /** A step of reader `r` that leaves the past, the counter and the writers alone. */
  lemma ReaderUpdateInv<D, Q, P>(s: State<D, Q, P>, t: State<D, Q, P>, r: nat, reader: Reader<Q, P>, read: (Q, seq<D>) -> P)
    requires Inv(s, read) && ReaderOk(s, reader, read)
    requires t.(cache := s.cache) == s.(readers := s.readers[r := reader])
    requires r in s.readers ==> reader.gen == s.readers[r].gen && reader.query == s.readers[r].query
    requires forall key :: key in t.cache ==> EntryOk(s, key, t.cache[key], read)
    ensures Inv(t, read) && Grows(s, t)
  {
    forall q | q in t.readers
      ensures ReaderOk(t, t.readers[q], read)
    {
      assert q != r ==> ReaderOk(s, s.readers[q], read);
    }
    forall key | key in t.cache
      ensures EntryOk(t, key, t.cache[key], read)
    {
      assert EntryOk(s, key, t.cache[key], read);
    }
    forall w | w in t.writers
      ensures WriterOk(t, t.writers[w])
    {
      assert WriterOk(s, s.writers[w]);
    }
  }

  lemma ReadStepInv<D, Q, P>(s: State<D, Q, P>, a: Action<D, Q>, read: (Q, seq<D>) -> P)
    requires Inv(s, read)
    requires a.Ask? || a.Probe? || a.Select? || a.Store?
    ensures Inv(Next(s, a, read), read) && Grows(s, Next(s, a, read))
  {
    var t := Next(s, a, read);
    if t != s {
      assert a.r in s.readers ==> ReaderOk(s, s.readers[a.r], read);
      if a.Probe? && (s.readers[a.r].gen, s.readers[a.r].query) in s.cache {
        var key := (s.readers[a.r].gen, s.readers[a.r].query);
        assert EntryOk(s, key, s.cache[key], read);
      }
      ReaderUpdateInv(s, t, a.r, t.readers[a.r], read);
    }
  }

  lemma {:induction false} RunInv<D, Q, P>(s: State<D, Q, P>, actions: seq<Action<D, Q>>, read: (Q, seq<D>) -> P)
    requires Inv(s, read)
    ensures Inv(Run(s, actions, read), read) && Grows(s, Run(s, actions, read))
    decreases |actions|
  {
    if actions != [] {
      var k := |actions| - 1;
      var t := Run(s, actions[..k], read);
      RunInv(s, actions[..k], read);
      if actions[k].Ask? || actions[k].Probe? || actions[k].Select? || actions[k].Store? {
        ReadStepInv(t, actions[k], read);
      } else {
        WriteStepInv(t, actions[k], read);
      }
    }
  }

  // ----- guarantees -----

  /** Every answer, hit or miss, is the page that an uncached read of the same query computes from
      versions that exist, and none of them is older than the generation the read started with. */
  lemma {:induction false} AnswersAreReads<D, Q, P>(data: D, actions: seq<Action<D, Q>>, read: (Q, seq<D>) -> P, r: nat)
    requires var t := Run(Initial<D, Q, P>(data), actions, read); r in t.readers && t.readers[r].Answered?
    ensures var t := Run(Initial<D, Q, P>(data), actions, read);
            var Answered(gen, query, seen, page) := t.readers[r];
            && gen < |t.floors|
            && (forall v :: v in seen ==> t.floors[gen] <= v < |t.versions|)
            && page == read(query, Contents(t.versions, seen))
  {
    InitialInv<D, Q, P>(data, read);
    RunInv(Initial<D, Q, P>(data), actions, read);
    var t := Run(Initial<D, Q, P>(data), actions, read);
    assert ReaderOk(t, t.readers[r], read);
  }

  lemma {:induction false} FreshFrom<D, Q, P>(s: State<D, Q, P>, r: nat, query: Q, after: seq<Action<D, Q>>, read: (Q, seq<D>) -> P)
    requires Inv(s, read) && r !in s.readers
    ensures var t := Run(Next(s, Ask(r, query), read), after, read);
            && r in t.readers && t.readers[r].query == query
            && (t.readers[r].Answered? ==> forall v :: v in t.readers[r].seen ==> s.floors[s.gen] <= v < |t.versions|)
  {
    var asked := Next(s, Ask(r, query), read);
    ReadStepInv(s, Ask(r, query), read);
    RunInv(asked, after, read);
    var t := Run(asked, after, read);
    assert r in asked.readers && asked.readers[r] == Asked(s.gen, query);
    assert r in t.readers && ReaderOk(t, t.readers[r], read);
    assert t.floors[s.gen] == s.floors[s.gen];
  }

  /** Freshness under every interleaving.  Take any run up to a moment `s`, let a read start there,
      and let anything happen until it is answered.  Then the answer saw nothing older than the data
      at the last bump before `s`; in particular it saw every write that had committed and bumped
      by then, however slow the readers that filled the cache were. */
  lemma {:induction false} FreshAfterBump<D, Q, P>(data: D, before: seq<Action<D, Q>>, r: nat, query: Q, after: seq<Action<D, Q>>,
                                read: (Q, seq<D>) -> P)
    requires r !in Run(Initial<D, Q, P>(data), before, read).readers
    ensures var s := Run(Initial<D, Q, P>(data), before, read);
            var t := Run(Next(s, Ask(r, query), read), after, read);
            && r in t.readers && t.readers[r].query == query
            && |s.floors| == s.gen + 1
            && (t.readers[r].Answered? ==>
                  forall v :: v in t.readers[r].seen ==>
                    && s.floors[s.gen] <= v < |t.versions|
                    && forall w :: w in s.writers && s.writers[w].Finished? && s.writers[w].bumpedLast ==> s.writers[w].version <= v)
  {
    var s := Run(Initial<D, Q, P>(data), before, read);
    InitialInv<D, Q, P>(data, read);
    RunInv(Initial<D, Q, P>(data), before, read);
    FreshFrom(s, r, query, after, read);
    assert forall w :: w in s.writers ==> WriterOk(s, s.writers[w]);
  }

  ghost predicate Bumps<D, Q, P>(s: State<D, Q, P>, a: Action<D, Q>) {
    || (a.Bump? && a.w in s.writers && s.writers[a.w].MustBump?)
    || (a.BumpFirst? && a.w !in s.writers)
  }

  /** A bump of any kind protects every commit that precedes it, whoever made the commit: silent
      writes and late commits are visible to all later reads as soon as any writer bumps. */
  lemma {:induction false} BumpCoversEarlierCommits<D, Q, P>(data: D, before: seq<Action<D, Q>>, bump: Action<D, Q>, between: seq<Action<D, Q>>,
                                          r: nat, query: Q, after: seq<Action<D, Q>>, read: (Q, seq<D>) -> P)
    requires Bumps(Run(Initial<D, Q, P>(data), before, read), bump)
    requires var started := Run(Next(Run(Initial<D, Q, P>(data), before, read), bump, read), between, read);
             && r !in started.readers
             && var t := Run(Next(started, Ask(r, query), read), after, read);
             r in t.readers ==> t.readers[r].Answered?
    ensures var s := Run(Initial<D, Q, P>(data), before, read);
            var t := Run(Next(Run(Next(s, bump, read), between, read), Ask(r, query), read), after, read);
            r in t.readers && forall v :: v in t.readers[r].seen ==> Newest(s) <= v
  {
    var s := Run(Initial<D, Q, P>(data), before, read);
    InitialInv<D, Q, P>(data, read);
    RunInv(Initial<D, Q, P>(data), before, read);
    var bumped := Next(s, bump, read);
    WriteStepInv(s, bump, read);
    RunInv(bumped, between, read);
    var started := Run(bumped, between, read);
    assert bumped.floors[bumped.gen] == Newest(s) == started.floors[bumped.gen];
    FloorsRise(started, bumped.gen, started.gen);
    FreshFrom(started, r, query, after, read);
  }

  // ----- the data behind the versions -----

  /** Which writers have begun, which of them still have to commit, and what has been committed, in order. */
  datatype Tally<D> = Tally(begun: set<nat>, owing: set<nat>, data: seq<D>)

  ghost function Counted<D, Q>(t: Tally<D>, a: Action<D, Q>): Tally<D> {
    match a
    case Commit(w, data) => if w in t.begun then t else Tally(t.begun + {w}, t.owing, t.data + [data])
    case BumpFirst(w) => if w in t.begun then t else Tally(t.begun + {w}, t.owing + {w}, t.data)
    case LateCommit(w, data) => if w in t.owing then Tally(t.begun, t.owing - {w}, t.data + [data]) else t
    case SilentCommit(data) => t.(data := t.data + [data])
    case _ => t
  }

  ghost function TallyOf<D, Q>(actions: seq<Action<D, Q>>): Tally<D>
    decreases |actions|
  {
    if actions == [] then Tally({}, {}, []) else Counted(TallyOf(actions[..|actions| - 1]), actions[|actions| - 1])
  }

  ghost predicate Tallies<D, Q, P>(s: State<D, Q, P>, data: D, tally: Tally<D>) {
    && s.versions == [data] + tally.data && s.writers.Keys == tally.begun && tally.owing <= tally.begun
    && forall w :: w in s.writers ==> (s.writers[w].MustCommit? <==> w in tally.owing)
  }

  lemma StepTallies<D, Q, P>(s: State<D, Q, P>, a: Action<D, Q>, data: D, tally: Tally<D>, read: (Q, seq<D>) -> P)
    requires Tallies(s, data, tally)
    ensures Tallies(Next(s, a, read), data, Counted(tally, a))
  {
  }

  /** Over every run the versions are the data at the start and then the data of the accepted commits, in their
      order. */
  lemma {:induction false} VersionsAreCommits<D, Q, P>(data: D, actions: seq<Action<D, Q>>, read: (Q, seq<D>) -> P)
    ensures Tallies(Run(Initial<D, Q, P>(data), actions, read), data, TallyOf(actions))
    ensures Run(Initial<D, Q, P>(data), actions, read).versions == [data] + TallyOf(actions).data
    decreases |actions|
  {
    if actions != [] {
      var k := |actions| - 1;
      VersionsAreCommits<D, Q, P>(data, actions[..k], read);
      StepTallies(Run(Initial<D, Q, P>(data), actions[..k], read), actions[k], data, TallyOf(actions[..k]), read);
    }
  }

  /** No action of the list commits anything, whatever has happened before. */
  ghost predicate CommitsNothing<D, Q>(actions: seq<Action<D, Q>>) {
    forall a :: a in actions ==> !a.Commit? && !a.LateCommit? && !a.SilentCommit?
  }

  lemma {:induction false} RunAppend<D, Q, P>(s: State<D, Q, P>, a: seq<Action<D, Q>>, b: seq<Action<D, Q>>, read: (Q, seq<D>) -> P)
    ensures Run(s, a + b, read) == Run(Run(s, a, read), b, read)
    decreases |b|
  {
    if b == [] {
      assert a + b == a;
    } else {
      assert (a + b)[..|a + b| - 1] == a + b[..|b| - 1];
      RunAppend(s, a, b[..|b| - 1], read);
    }
  }

  lemma {:induction false} NothingCommitted<D, Q, P>(s: State<D, Q, P>, actions: seq<Action<D, Q>>, read: (Q, seq<D>) -> P)
    requires CommitsNothing(actions)
    ensures Run(s, actions, read).versions == s.versions
    decreases |actions|
  {
    if actions != [] {
      NothingCommitted(s, actions[..|actions| - 1], read);
      assert actions[|actions| - 1] in actions;
    }
  }

  lemma {:induction false} FinishedStays<D, Q, P>(s: State<D, Q, P>, actions: seq<Action<D, Q>>, w: nat, version: nat, bumped: bool, read: (Q, seq<D>) -> P)
    requires w in s.writers && s.writers[w] == Finished(version, bumped)
    ensures var t := Run(s, actions, read); w in t.writers && t.writers[w] == Finished(version, bumped)
    decreases |actions|
  {
    if actions != [] {
      FinishedStays(s, actions[..|actions| - 1], w, version, bumped, read);
    }
  }

  lemma {:induction false} MustBumpStays<D, Q, P>(s: State<D, Q, P>, actions: seq<Action<D, Q>>, w: nat, version: nat, read: (Q, seq<D>) -> P)
    requires w in s.writers && s.writers[w] == MustBump(version)
    ensures var t := Run(s, actions, read); w in t.writers && (t.writers[w] == MustBump(version) || t.writers[w] == Finished(version, true))
    decreases |actions|
  {
    if actions != [] {
      MustBumpStays(s, actions[..|actions| - 1], w, version, read);
    }
  }

  /** n copies of the same data: what the n statements of a read see when nothing else is committed. */
  ghost function Copies<D>(d: D, n: nat): seq<D> {
    seq(n, _ => d)
  }

  lemma ContentsFrom<D>(versions: seq<D>, seen: seq<nat>, v: nat)
    requires |versions| == v + 1 && forall u :: u in seen ==> v <= u < |versions|
    ensures Contents(versions, seen) == Copies(versions[v], |seen|)
  {
    forall i | 0 <= i < |seen|
      ensures Contents(versions, seen)[i] == versions[v]
    {
      assert seen[i] in seen;
    }
  }

  /** A run: anything, the commit of d by a new writer, other steps, its bump, other steps. */
  ghost function CommitAndBump<D, Q>(before: seq<Action<D, Q>>, w: nat, d: D, between: seq<Action<D, Q>>, after: seq<Action<D, Q>>): seq<Action<D, Q>> {
    before + [Commit(w, d)] + between + [Bump(w)] + after
  }

  lemma {:induction false} RunInParts<D, Q, P>(s: State<D, Q, P>, before: seq<Action<D, Q>>, w: nat, d: D, between: seq<Action<D, Q>>,
                                               after: seq<Action<D, Q>>, read: (Q, seq<D>) -> P)
    ensures Run(s, CommitAndBump(before, w, d, between, after), read)
         == Run(Next(Run(Next(Run(s, before, read), Commit(w, d), read), between, read), Bump(w), read), after, read)
  {
    RunAppend(s, before, [Commit(w, d)], read);
    RunOne(Run(s, before, read), Commit(w, d), read);
    RunAppend(s, before + [Commit(w, d)], between, read);
    var s2 := Run(s, before + [Commit(w, d)] + between, read);
    RunAppend(s, before + [Commit(w, d)] + between, [Bump(w)], read);
    RunOne(s2, Bump(w), read);
    RunAppend(s, before + [Commit(w, d)] + between + [Bump(w)], after, read);
  }

  /** From a commit that is still to be bumped, through the bump: the newest version stays and is bumped. */
  lemma {:induction false} BumpedFrom<D, Q, P>(s: State<D, Q, P>, w: nat, between: seq<Action<D, Q>>, after: seq<Action<D, Q>>, read: (Q, seq<D>) -> P)
    requires Inv(s, read) && w in s.writers && s.writers[w] == MustBump(Newest(s))
    requires CommitsNothing(between) && CommitsNothing(after)
    ensures var t := Run(Next(Run(s, between, read), Bump(w), read), after, read);
            Inv(t, read) && t.versions == s.versions && |t.floors| == t.gen + 1 && t.floors[t.gen] == Newest(s)
  {
    var waiting := Run(s, between, read);
    NothingCommitted(s, between, read);
    RunInv(s, between, read);
    MustBumpStays(s, between, w, Newest(s), read);
    var bumped := Next(waiting, Bump(w), read);
    WriteStepInv(waiting, Bump(w), read);
    assert w in bumped.writers && bumped.writers[w] == Finished(Newest(s), true);
    NothingCommitted(bumped, after, read);
    RunInv(bumped, after, read);
    FinishedStays(bumped, after, w, Newest(s), true, read);
    var t := Run(bumped, after, read);
    assert WriterOk(t, t.writers[w]);
  }

  /** The state of such a run, in which nothing else is committed after d: d is the newest version, and it has
      been bumped. */
  lemma {:induction false} BumpedData<D, Q, P>(data: D, before: seq<Action<D, Q>>, w: nat, d: D, between: seq<Action<D, Q>>, after: seq<Action<D, Q>>,
                                               read: (Q, seq<D>) -> P)
    requires w !in TallyOf(before).begun && CommitsNothing(between) && CommitsNothing(after)
    ensures var s := Run(Initial<D, Q, P>(data), CommitAndBump(before, w, d, between, after), read);
            && Inv(s, read) && |s.versions| > 0 && s.versions[Newest(s)] == d
            && |s.floors| == s.gen + 1 && s.floors[s.gen] == Newest(s)
  {
    var s := Run(Initial<D, Q, P>(data), before, read);
    VersionsAreCommits<D, Q, P>(data, before, read);
    InitialInv<D, Q, P>(data, read);
    RunInv(Initial<D, Q, P>(data), before, read);
    WriteStepInv(s, Commit(w, d), read);
    BumpedFrom(Next(s, Commit(w, d), read), w, between, after, read);
    RunInParts(Initial<D, Q, P>(data), before, w, d, between, after, read);
  }

  lemma {:induction false} RunOne<D, Q, P>(s: State<D, Q, P>, a: Action<D, Q>, read: (Q, seq<D>) -> P)
    ensures Run(s, [a], read) == Next(s, a, read)
  {
    assert [a][..0] == [];
  }

  /** Freshness in data: when d is the last commit and its writer has bumped, every read that starts then is
      answered with the page of d alone, however many statements it makes and whatever the cache held, as long as
      nothing more is committed before its answer. */
  lemma {:induction false} FreshData<D, Q, P>(data: D, before: seq<Action<D, Q>>, w: nat, d: D, between: seq<Action<D, Q>>, after: seq<Action<D, Q>>,
                                              r: nat, query: Q, until: seq<Action<D, Q>>, read: (Q, seq<D>) -> P)
    requires w !in TallyOf(before).begun && CommitsNothing(between) && CommitsNothing(after) && CommitsNothing(until)
    requires r !in Run(Initial<D, Q, P>(data), CommitAndBump(before, w, d, between, after), read).readers
    ensures var s := Run(Initial<D, Q, P>(data), CommitAndBump(before, w, d, between, after), read);
            var t := Run(Next(s, Ask(r, query), read), until, read);
            && r in t.readers && t.readers[r].query == query
            && (t.readers[r].Answered? ==> t.readers[r].page == read(query, Copies(d, |t.readers[r].seen|)))
  {
    BumpedData<D, Q, P>(data, before, w, d, between, after, read);
    var s := Run(Initial<D, Q, P>(data), CommitAndBump(before, w, d, between, after), read);
    var asked := Next(s, Ask(r, query), read);
    FreshFrom(s, r, query, until, read);
    ReadStepInv(s, Ask(r, query), read);
    RunInv(asked, until, read);
    NothingCommitted(asked, until, read);
    var t := Run(asked, until, read);
    if t.readers[r].Answered? {
      assert ReaderOk(t, t.readers[r], read);
      ContentsFrom(t.versions, t.readers[r].seen, Newest(s));
    }
  }

  // ----- which versions a read that starts now can be answered from -----

  /** Neither the cached page of the query under generation `gen` nor any reader that is about to file one has
      seen anything older than version v. */
  ghost predicate NothingOlder<D, Q, P>(s: State<D, Q, P>, gen: nat, query: Q, v: nat) {
    && ((gen, query) in s.cache ==> SeenFrom(s.cache[(gen, query)].seen, v))
    && forall q :: q in s.readers && Files(s.readers[q], gen, query) ==> SeenFrom(s.readers[q].seen, v)
  }

  ghost predicate SeenFrom(seen: seq<nat>, v: nat) {
    forall u :: u in seen ==> v <= u
  }

  /** The reader will store a page under this key. */
  ghost predicate Files<Q, P>(r: Reader<Q, P>, gen: nat, query: Q) {
    r.Reading? && r.gen == gen && r.query == query
  }

  ghost predicate AnswersFrom<D, Q, P>(s: State<D, Q, P>, r: nat, v: nat) {
    r in s.readers && (s.readers[r].Answered? ==> SeenFrom(s.readers[r].seen, v))
  }

  /** A read that starts now is answered from version v on, whatever happens. */
  ghost predicate AlwaysFrom<D(!new), Q(!new), P>(s: State<D, Q, P>, r: nat, query: Q, v: nat, read: (Q, seq<D>) -> P) {
    forall after :: AnswersFrom(Run(Next(s, Ask(r, query), read), after, read), r, v)
  }

  ghost predicate Holds<D, Q, P>(s: State<D, Q, P>, gen: nat, query: Q, v: nat, r: nat) {
    && v < |s.versions| && NothingOlder(s, gen, query, v) && AnswersFrom(s, r, v)
    && s.readers[r].gen == gen && s.readers[r].query == query
  }

  lemma StepHolds<D, Q, P>(s: State<D, Q, P>, a: Action<D, Q>, gen: nat, query: Q, v: nat, r: nat, read: (Q, seq<D>) -> P)
    requires Holds(s, gen, query, v, r)
    ensures Holds(Next(s, a, read), gen, query, v, r)
  {
  }

  lemma {:induction false} RunHolds<D, Q, P>(s: State<D, Q, P>, actions: seq<Action<D, Q>>, gen: nat, query: Q, v: nat, r: nat, read: (Q, seq<D>) -> P)
    requires Holds(s, gen, query, v, r)
    ensures Holds(Run(s, actions, read), gen, query, v, r)
    decreases |actions|
  {
    if actions != [] {
      RunHolds(s, actions[..|actions| - 1], gen, query, v, r, read);
      StepHolds(Run(s, actions[..|actions| - 1], read), actions[|actions| - 1], gen, query, v, r, read);
    }
  }

  lemma {:induction false} RunOfTwo<D, Q, P>(s: State<D, Q, P>, a: Action<D, Q>, b: Action<D, Q>, read: (Q, seq<D>) -> P)
    ensures Run(s, [a, b], read) == Next(Next(s, a, read), b, read)
  {
    assert [a][..0] == [] && Run(s, [a], read) == Next(s, a, read);
    assert [a, b][..1] == [a];
  }

  lemma HitServesEntry<D, Q, P>(s: State<D, Q, P>, r: nat, query: Q, read: (Q, seq<D>) -> P)
    requires r !in s.readers && (s.gen, query) in s.cache
    ensures var t := Next(Next(s, Ask(r, query), read), Probe(r), read);
            r in t.readers && t.readers[r].Answered? && t.readers[r].seen == s.cache[(s.gen, query)].seen
  {
    assert Next(s, Ask(r, query), read).readers[r] == Asked(s.gen, query);
  }

  lemma StoredIsServed<D, Q, P>(s: State<D, Q, P>, q: nat, r: nat, query: Q, read: (Q, seq<D>) -> P)
    requires q in s.readers && Files(s.readers[q], s.gen, query) && r !in s.readers
    requires forall u :: u in s.readers[q].seen ==> u < |s.versions|
    ensures var t := Next(Next(Next(s, Ask(r, query), read), Store(q), read), Probe(r), read);
            r in t.readers && t.readers[r].Answered? && t.readers[r].seen == s.readers[q].seen
  {
    var stored := Next(Next(s, Ask(r, query), read), Store(q), read);
    assert (s.gen, query) in stored.cache && stored.cache[(s.gen, query)].seen == s.readers[q].seen;
    assert stored.readers[r] == Asked(s.gen, query);
  }

  /** Let the reader that holds something older file its page, and probe. */
  lemma OlderIsServed<D, Q, P>(s: State<D, Q, P>, r: nat, query: Q, v: nat, read: (Q, seq<D>) -> P) returns (after: seq<Action<D, Q>>)
    requires Inv(s, read) && r !in s.readers && !NothingOlder(s, s.gen, query, v)
    ensures !AnswersFrom(Run(Next(s, Ask(r, query), read), after, read), r, v)
  {
    var asked := Next(s, Ask(r, query), read);
    if (s.gen, query) in s.cache && !SeenFrom(s.cache[(s.gen, query)].seen, v) {
      after := [Probe(r)];
      assert after[..0] == [] && Run(asked, after, read) == Next(asked, Probe(r), read);
      HitServesEntry(s, r, query, read);
    } else {
      var q :| q in s.readers && Files(s.readers[q], s.gen, query) && !SeenFrom(s.readers[q].seen, v);
      after := [Store(q), Probe(r)];
      RunOfTwo(asked, Store(q), Probe(r), read);
      assert ReaderOk(s, s.readers[q], read);
      StoredIsServed(s, q, r, query, read);
    }
  }

  /** Exactly when: every answer to a read that starts now comes from version v on, in every continuation, if and
      only if the cache and the readers of its key hold nothing older. */
  lemma ReadIsFreshIff<D(!new), Q(!new), P>(s: State<D, Q, P>, r: nat, query: Q, v: nat, read: (Q, seq<D>) -> P)
    requires Inv(s, read) && v < |s.versions| && r !in s.readers
    ensures AlwaysFrom(s, r, query, v, read) <==> NothingOlder(s, s.gen, query, v)
  {
    if NothingOlder(s, s.gen, query, v) {
      forall after
        ensures AnswersFrom(Run(Next(s, Ask(r, query), read), after, read), r, v)
      {
        RunHolds(Next(s, Ask(r, query), read), after, s.gen, query, v, r, read);
      }
    } else {
      var after := OlderIsServed(s, r, query, v, read);
    }
  }

  // ----- commits that no bump follows -----

  /** The commit of any writer, its bump aside. */
  ghost predicate Commits<D, Q, P>(s: State<D, Q, P>, a: Action<D, Q>) {
    || a.SilentCommit?
    || (a.Commit? && a.w !in s.writers)
    || (a.LateCommit? && a.w in s.writers && s.writers[a.w].MustCommit?)
  }

  /** No page of the query is cached under the current generation, and no reader of it has begun. */
  ghost predicate Unread<D, Q, P>(s: State<D, Q, P>, query: Q) {
    && ((s.gen, query) in s.cache ==> s.cache[(s.gen, query)].seen == [])
    && forall q :: q in s.readers && Files(s.readers[q], s.gen, query) ==> s.readers[q].seen == []
  }

  lemma OnlyEmptyIsFromTheFuture<D, Q, P>(s: State<D, Q, P>, gen: nat, seen: seq<nat>)
    requires SeenSince(s, gen, seen)
    ensures SeenFrom(seen, |s.versions|) <==> seen == []
  {
    if seen != [] {
      assert seen[0] in seen;
    }
  }

  /** A commit is seen by every read that starts after it, before any further bump, if and only if at the commit
      nobody had read the query under the current generation. */
  lemma CommitIsSeenIff<D(!new), Q(!new), P>(s: State<D, Q, P>, a: Action<D, Q>, r: nat, query: Q, read: (Q, seq<D>) -> P)
    requires Inv(s, read) && Commits(s, a) && r !in s.readers
    ensures AlwaysFrom(Next(s, a, read), r, query, |s.versions|, read) <==> Unread(s, query)
  {
    var t := Next(s, a, read);
    WriteStepInv(s, a, read);
    ReadIsFreshIff(t, r, query, |s.versions|, read);
    if (s.gen, query) in s.cache {
      assert EntryOk(s, (s.gen, query), s.cache[(s.gen, query)], read);
      OnlyEmptyIsFromTheFuture(s, s.gen, s.cache[(s.gen, query)].seen);
    }
    forall q | q in s.readers && Files(s.readers[q], s.gen, query)
      ensures SeenFrom(s.readers[q].seen, |s.versions|) <==> s.readers[q].seen == []
    {
      assert ReaderOk(s, s.readers[q], read);
      OnlyEmptyIsFromTheFuture(s, s.gen, s.readers[q].seen);
    }
  }

  /** A reader that finds nothing cached, selects once and stores, with nothing in between. */
  ghost function Filled<D, Q, P>(s: State<D, Q, P>, r: nat, query: Q, read: (Q, seq<D>) -> P): State<D, Q, P> {
    var evicted := Next(s, Evict({(s.gen, query)}), read);
    Next(Next(Next(Next(evicted, Ask(r, query), read), Probe(r), read), Select(r), read), Store(r), read)
  }

  lemma FilledInv<D, Q, P>(s: State<D, Q, P>, r: nat, query: Q, read: (Q, seq<D>) -> P)
    requires Inv(s, read)
    ensures Inv(Filled(s, r, query, read), read)
  {
    var evicted := Next(s, Evict({(s.gen, query)}), read);
    WriteStepInv(s, Evict({(s.gen, query)}), read);
    var asked := Next(evicted, Ask(r, query), read);
    ReadStepInv(evicted, Ask(r, query), read);
    var probed := Next(asked, Probe(r), read);
    ReadStepInv(asked, Probe(r), read);
    ReadStepInv(probed, Select(r), read);
    ReadStepInv(Next(probed, Select(r), read), Store(r), read);
  }

  lemma MissFills<D, Q, P>(s: State<D, Q, P>, r: nat, query: Q, read: (Q, seq<D>) -> P)
    requires |s.versions| > 0 && r !in s.readers && (s.gen, query) !in s.cache
    ensures var t := Next(Next(Next(Next(s, Ask(r, query), read), Probe(r), read), Select(r), read), Store(r), read);
            && t.versions == s.versions && t.gen == s.gen && t.writers == s.writers
            && t.readers.Keys == s.readers.Keys + {r}
            && (s.gen, query) in t.cache && t.cache[(s.gen, query)].seen == [Newest(s)]
  {
    var asked := Next(s, Ask(r, query), read);
    var missed := Next(asked, Probe(r), read);
    var selected := Next(missed, Select(r), read);
    assert missed.readers[r] == Reading(s.gen, query, []);
    assert selected.readers[r] == Reading(s.gen, query, [Newest(s)]);
  }

  lemma FilledCaches<D, Q, P>(s: State<D, Q, P>, r: nat, query: Q, read: (Q, seq<D>) -> P)
    requires |s.versions| > 0 && r !in s.readers
    ensures var t := Filled(s, r, query, read);
            && t.versions == s.versions && t.gen == s.gen && t.writers == s.writers
            && t.readers.Keys == s.readers.Keys + {r}
            && (s.gen, query) in t.cache && t.cache[(s.gen, query)].seen == [Newest(s)]
  {
    MissFills(Next(s, Evict({(s.gen, query)}), read), r, query, read);
  }

  /** Without a bump after the commit there is no guarantee: whatever has happened so far, a reader can fill the
      cache, a silent write can finish, and a read that starts afterwards can still be served the old page. */
  lemma SilentWriteCanBeMissed<D(!new), Q(!new), P>(s: State<D, Q, P>, query: Q, r: nat, later: nat, data: D, read: (Q, seq<D>) -> P)
    requires Inv(s, read)
    requires r !in s.readers && later !in s.readers && r != later
    ensures var written := Next(Filled(s, r, query, read), SilentCommit(data), read);
            var t := Next(Next(written, Ask(later, query), read), Probe(later), read);
            && Newest(written) == Newest(s) + 1
            && !AlwaysFrom(written, later, query, Newest(written), read)
            && later in t.readers && t.readers[later].Answered? && t.readers[later].seen == [Newest(s)]
  {
    FilledCaches(s, r, query, read);
    FilledInv(s, r, query, read);
    CommitIsSeenIff(Filled(s, r, query, read), SilentCommit(data), later, query, read);
    HitServesEntry(Next(Filled(s, r, query, read), SilentCommit(data), read), later, query, read);
  }

  /** A stock movement with a read between its bump and its caller's commit. */
  ghost function MovementAroundRead<D, Q, P>(s: State<D, Q, P>, query: Q, w: nat, r: nat, data: D, read: (Q, seq<D>) -> P): State<D, Q, P> {
    Next(Filled(Next(s, BumpFirst(w), read), r, query, read), LateCommit(w, data), read)
  }

  /** A stock movement bumps before its caller commits.  A read between the two files the old page under the new
      generation, and reads that start after the movement has finished are served it. */
  lemma EarlyBumpCanBeMissed<D(!new), Q(!new), P>(s: State<D, Q, P>, query: Q, w: nat, r: nat, later: nat, data: D, read: (Q, seq<D>) -> P)
    requires Inv(s, read) && w !in s.writers
    requires r !in s.readers && later !in s.readers && r != later
    ensures var moved := MovementAroundRead(s, query, w, r, data, read);
            var t := Next(Next(moved, Ask(later, query), read), Probe(later), read);
            && w in moved.writers && moved.writers[w] == Finished(Newest(s) + 1, false)
            && !AlwaysFrom(moved, later, query, Newest(s) + 1, read)
            && later in t.readers && t.readers[later].Answered? && t.readers[later].seen == [Newest(s)]
  {
    var bumped := Next(s, BumpFirst(w), read);
    WriteStepInv(s, BumpFirst(w), read);
    FilledCaches(bumped, r, query, read);
    FilledInv(bumped, r, query, read);
    CommitIsSeenIff(Filled(bumped, r, query, read), LateCommit(w, data), later, query, read);
    HitServesEntry(MovementAroundRead(s, query, w, r, data, read), later, query, read);
  }
}
