/** Gathering candidates by group, evaluating per group, and scattering the scores back. */
module GroupedDispatch {
  import opened CmaEs
  import opened ScoreFiles
  import opened SignalCache
  import opened Wrappers

  datatype RunResult = Raised | Exit(code: int)

  /** What a group has in common: its snapped signal and spec-override parameters. */
  datatype Key<P> = Key(signal: P, specOverride: P)

  datatype Group<C, P> = Group(hash: string, signalHash: string, key: Key<P>, indices: seq<nat>, rows: seq<C>)

  datatype Task<C, P, D> = Task(group: Group<C, P>, data: D, specStem: string)

  predicate Increasing(xs: seq<nat>) {
    forall i, j | 0 <= i < j < |xs| :: xs[i] < xs[j]
  }

  /** Every group on every fold. */
  function AllRuns(groups: nat, folds: nat): (runs: set<(nat, nat)>)
    ensures forall g: nat, f: nat :: (g, f) in runs <==> g < groups && f < folds
  {
    if groups == 0 then {} else AllRuns(groups - 1, folds) + RunsOf(groups - 1, folds)
  }

  function RunsOf(g: nat, folds: nat): (runs: set<(nat, nat)>)
    ensures forall h: nat, f: nat :: (h, f) in runs <==> h == g && f < folds
  {
    if folds == 0 then {} else RunsOf(g, folds - 1) + {(g, folds - 1)}
  }

  function Below(n: nat): (s: set<nat>)
    ensures forall i: nat :: i in s <==> i < n
  {
    if n == 0 then {} else Below(n - 1) + {n - 1}
  }

  function Hashes<C, P, D>(tasks: seq<Task<C, P, D>>): (r: seq<string>)
    ensures |r| == |tasks| && forall k | 0 <= k < |tasks| :: r[k] == tasks[k].group.hash
  {
    seq(|tasks|, k requires 0 <= k < |tasks| => tasks[k].group.hash)
  }

  /** The optimizer's grouped dispatch, over the files one generation writes and the cache of
      enriched data. Key extraction, hashing, decoding and the backtester are parameters. */
  class Dispatcher<C(!new), P(!new, ==), S(!new), D(!new)> {
    const signalOf: C -> P
    const overrideOf: C -> P
    const decode: C -> P
    const signalHash: P -> string
    const groupHash: Key<P> -> string
    const specOf: Key<P> -> S
    const evaluate: (S, D, P, nat) -> Score
    /** The groups that pre-screening left, if there was one. */
    const surviving: Option<set<string>>
    const cache: SignalCacheManager<P, string, D>

    /** `spec_<hash[:12]>.toml`. */
    var specFiles: map<string, S>
    /** `grp_<hash[:8]>/fold_<f>/scores.arrow`. */
    var scoreFiles: map<(string, nat), seq<Score>>

    constructor (signalOf: C -> P, overrideOf: C -> P, decode: C -> P, signalHash: P -> string,
                 groupHash: Key<P> -> string, specOf: Key<P> -> S, evaluate: (S, D, P, nat) -> Score,
                 surviving: Option<set<string>>, cache: SignalCacheManager<P, string, D>)
      ensures specFiles == map[] && scoreFiles == map[]
      ensures this.signalOf == signalOf && this.overrideOf == overrideOf && this.decode == decode
      ensures this.signalHash == signalHash && this.groupHash == groupHash && this.specOf == specOf
      ensures this.evaluate == evaluate && this.surviving == surviving && this.cache == cache
    {
      this.signalOf, this.overrideOf, this.decode := signalOf, overrideOf, decode;
      this.signalHash, this.groupHash, this.specOf := signalHash, groupHash, specOf;
      this.evaluate, this.surviving, this.cache := evaluate, surviving, cache;
      specFiles, scoreFiles := map[], map[];
    }

    /** Hashes have sixteen characters and are taken not to collide among these candidates. */
    ghost predicate Hashing(candidates: seq<C>) {
      && (forall c | c in candidates :: |HashOf(c)| == 16)
      && (forall c, d | c in candidates && d in candidates && HashOf(c) == HashOf(d) :: KeyOf(c) == KeyOf(d))
      && (forall c, d | c in candidates && d in candidates && signalHash(signalOf(c)) == signalHash(signalOf(d)) ::
            signalOf(c) == signalOf(d))
    }

    function KeyOf(c: C): Key<P> {
      Key(signalOf(c), overrideOf(c))
    }

    function HashOf(c: C): string {
      groupHash(KeyOf(c))
    }

    predicate Kept(h: string) {
      surviving.None? || h in surviving.value
    }

    predicate Survives(c: C) {
      Kept(HashOf(c))
    }

    /** The reference: one candidate scored by itself on one fold, under its own spec and data. */
    function Alone(c: C, f: nat): Score {
      if cache.precompute(signalOf(c)).None? then NegInf
      else evaluate(specOf(KeyOf(c)), cache.precompute(signalOf(c)).value, decode(c), f)
    }

    // ----- gathering -----

    /** Group g holds candidates of one key, in order. */
    ghost predicate GroupOf(g: Group<C, P>, h: string, candidates: seq<C>) {
      && g.hash == h == groupHash(g.key) && g.signalHash == signalHash(g.key.signal)
      && |g.rows| == |g.indices| > 0 && Increasing(g.indices)
      && (forall k | 0 <= k < |g.indices| ::
            g.indices[k] < |candidates| && g.rows[k] == candidates[g.indices[k]]
            && KeyOf(g.rows[k]) == g.key)
    }

    /** The groups partition the surviving candidates. */
    ghost predicate Gathered(order: seq<string>, groups: map<string, Group<C, P>>, candidates: seq<C>) {
      && (forall h :: h in groups <==> h in order)
      && (forall i, j | 0 <= i < j < |order| :: order[i] != order[j])
      && (forall h | h in groups :: GroupOf(groups[h], h, candidates) && Kept(h))
      && (forall i | 0 <= i < |candidates| && Survives(candidates[i]) ::
            HashOf(candidates[i]) in groups && i in groups[HashOf(candidates[i])].indices)
    }

    /** First part of `_dispatch_grouped`: the group dictionary, in insertion order. */
    method Gather(candidates: seq<C>) returns (order: seq<string>, groups: map<string, Group<C, P>>)
      requires Hashing(candidates)
      ensures Gathered(order, groups, candidates)
    {
      order, groups := [], map[];
      for i := 0 to |candidates|
        invariant Gathered(order, groups, candidates[..i])
      {
        var c := candidates[i];
        assert candidates[..i + 1] == candidates[..i] + [c];
        HashingPart(candidates, i);
        var sig, so := signalOf(c), overrideOf(c);
        var h := groupHash(Key(sig, so));
        if surviving.Some? && h !in surviving.value {
          continue;
        }
        AddOne(order, groups, candidates[..i], c);
        ghost var was := groups;
        if h !in groups {
          order := order + [h];
          groups := groups[h := Group(h, signalHash(sig), Key(sig, so), [], [])];
        }
        groups := groups[h := Append(groups[h], i, c)];
        assert groups == was[h := Append(GroupFor(was, c), i, c)];
      }
      assert candidates[..|candidates|] == candidates;
    }

    lemma {:induction false} HashingPart(candidates: seq<C>, i: nat)
      requires Hashing(candidates) && i < |candidates|
      ensures forall c | c in candidates[..i] && HashOf(c) == HashOf(candidates[i]) :: KeyOf(c) == KeyOf(candidates[i])
    {
      hide HashOf, KeyOf;
      assert candidates[i] in candidates;
      assert forall c | c in candidates[..i] :: c in candidates;
    }

    function Append(g: Group<C, P>, i: nat, c: C): Group<C, P> {
      g.(indices := g.indices + [i], rows := g.rows + [c])
    }

    lemma GroupOfMore(g: Group<C, P>, h: string, before: seq<C>, c: C)
      requires GroupOf(g, h, before)
      ensures GroupOf(g, h, before + [c])
    {
    }

    function GroupFor(groups: map<string, Group<C, P>>, c: C): Group<C, P> {
      if HashOf(c) in groups then groups[HashOf(c)]
      else Group(HashOf(c), signalHash(signalOf(c)), KeyOf(c), [], [])
    }

    lemma {:induction false} AddOne(order: seq<string>, groups: map<string, Group<C, P>>, before: seq<C>, c: C)
      requires Gathered(order, groups, before) && Survives(c)
      requires forall d | d in before && HashOf(d) == HashOf(c) :: KeyOf(d) == KeyOf(c)
      ensures Gathered(
        if HashOf(c) in groups then order else order + [HashOf(c)],
        groups[HashOf(c) := Append(GroupFor(groups, c), |before|, c)], before + [c])
    {
      hide GroupOf, HashOf, KeyOf;
      var h, start := HashOf(c), GroupFor(groups, c);
      if h in groups {
        FirstHasKey(groups[h], h, before, c);
      }
      AppendOne(start, h, before, c);
      var more := groups[h := Append(start, |before|, c)];
      var all := before + [c];
      forall g | g in more
        ensures GroupOf(more[g], g, all) && Kept(g)
      {
        if g != h {
          GroupOfMore(groups[g], g, before, c);
        }
      }
      forall i | 0 <= i < |all| && Survives(all[i])
        ensures HashOf(all[i]) in more && i in more[HashOf(all[i])].indices
      {
        if i < |before| {
          assert all[i] == before[i];
          assert HashOf(before[i]) in groups;
        } else {
          assert |before| in start.indices + [|before|];
        }
      }
    }

    lemma {:induction false} FirstHasKey(g: Group<C, P>, h: string, before: seq<C>, c: C)
      requires GroupOf(g, h, before) && h == HashOf(c)
      requires forall d | d in before && HashOf(d) == HashOf(c) :: KeyOf(d) == KeyOf(c)
      ensures g.key == KeyOf(c)
    {
      hide KeyOf;
      assert g.rows[0] in before && KeyOf(g.rows[0]) == g.key;
    }

    lemma AppendOne(start: Group<C, P>, h: string, before: seq<C>, c: C)
      requires h == HashOf(c) && start.key == KeyOf(c)
      requires GroupOf(start, h, before) || start == Group(h, signalHash(signalOf(c)), KeyOf(c), [], [])
      ensures GroupOf(Append(start, |before|, c), h, before + [c])
    {
    }

    // ----- data -----

    /** The cache keys of the surviving candidates' signal settings. */
    ghost function SignalKeys(candidates: seq<C>): set<string> {
      set c | c in candidates && Survives(c) :: cache.keyOf(signalOf(c))
    }

    /** The distinct signal settings of the groups: `unique_signal_sets`. */
    ghost predicate SettingsOf(settings: seq<P>, order: seq<string>, groups: map<string, Group<C, P>>) {
      && (forall h | h in order :: h in groups && groups[h].key.signal in settings)
      && (forall p | p in settings :: exists h :: h in order && h in groups && groups[h].key.signal == p)
    }

    /** Every group finds the path of its own signal setting under its signal hash. */
    ghost predicate DataFor(groups: map<string, Group<C, P>>, enriched: map<string, Path<string>>) {
      forall h | h in groups ::
        && groups[h].signalHash in enriched
        && enriched[groups[h].signalHash] == CacheFile(cache.keyOf(groups[h].key.signal))
    }

    /** Some group's enriched file was evicted. */
    ghost predicate SomeGone(groups: map<string, Group<C, P>>)
      reads cache
    {
      exists h :: h in groups && Gone(groups[h].key.signal)
    }

    ghost predicate Gone(p: P)
      reads cache
    {
      !cache.Live(p) && (CacheFile(cache.keyOf(p)) !in cache.disk || cache.keyOf(p) in cache.stuck)
    }

    /** Every group's enriched file is there. */
    ghost predicate AllLive(groups: map<string, Group<C, P>>)
      reads cache
    {
      forall h | h in groups :: cache.Live(groups[h].key.signal)
    }

    /** Second part of `_dispatch_grouped`: the distinct settings, then one cache call for each.
        No call evicts what an earlier one returned, if the cache has room for all of them. */
    method Enrich(order: seq<string>, groups: map<string, Group<C, P>>, ghost candidates: seq<C>)
      returns (enriched: Option<map<string, Path<string>>>)
      requires Hashing(candidates) && Gathered(order, groups, candidates)
      requires cache.Valid() && cache.Honest()
      modifies cache
      ensures cache.Valid() && cache.Honest()
      ensures enriched.Some? <==> forall h | h in groups :: cache.precompute(groups[h].key.signal).Some?
      ensures enriched.Some? ==> DataFor(groups, enriched.value)
      ensures (enriched.Some? && (cache.strictClock || cache.hits == old(cache.hits))
        && |SignalKeys(candidates)| <= cache.maxEntries && cache.capHits == old(cache.capHits)) ==> AllLive(groups)
      ensures cache.misses >= old(cache.misses) && cache.stuck == old(cache.stuck)
      ensures enriched.Some? && cache.misses == old(cache.misses) ==> AllLive(groups)
      ensures enriched.Some? && cache.misses > old(cache.misses) && |SignalKeys(candidates)| > cache.maxEntries ==>
        SomeGone(groups)
    {
      hide Gathered, Hashing, SettingsOf, DataFor, SignalKeys, AllLive;
      var settings := Distinct(order, groups, candidates);
      var paths := ComputeEach(settings, order, groups, candidates);
      if paths.None? {
        return None;
      }
      var bySignal := ByHash(settings, paths.value);
      GroupsEnriched(settings, order, groups, candidates, bySignal);
      enriched := Some(bySignal);
    }

    method ComputeEach(settings: seq<P>, ghost order: seq<string>, ghost groups: map<string, Group<C, P>>,
                       ghost candidates: seq<C>)
      returns (paths: Option<map<string, Path<string>>>)
      requires Hashing(candidates) && Gathered(order, groups, candidates) && SettingsOf(settings, order, groups)
      requires cache.Valid() && cache.Honest()
      modifies cache
      ensures cache.Valid() && cache.Honest()
      ensures paths.Some? <==> forall h | h in groups :: cache.precompute(groups[h].key.signal).Some?
      ensures paths.Some? ==> paths.value.Keys == cache.Keys(settings)
      ensures paths.Some? ==> forall k | k in paths.value :: paths.value[k] == CacheFile(k)
      ensures (paths.Some? && (cache.strictClock || cache.hits == old(cache.hits))
        && |SignalKeys(candidates)| <= cache.maxEntries && cache.capHits == old(cache.capHits)) ==> AllLive(groups)
      ensures cache.misses >= old(cache.misses) && cache.stuck == old(cache.stuck)
      ensures paths.Some? && cache.misses == old(cache.misses) ==> AllLive(groups)
      ensures paths.Some? && cache.misses > old(cache.misses) && |SignalKeys(candidates)| > cache.maxEntries ==>
        SomeGone(groups)
    {
      hide Gathered, SettingsOf, SignalKeys, AllLive, SomeGone, Hashing;
      SettingsKeys(settings, order, groups, candidates);
      SettingsAreSignals(settings, order, groups, candidates);
      paths := cache.GetOrComputeEach(settings);
      SettingsAllLive(settings, order, groups, candidates);
      SettingGone(settings, order, groups, candidates);
    }

    method Distinct(order: seq<string>, groups: map<string, Group<C, P>>, ghost candidates: seq<C>)
      returns (settings: seq<P>)
      requires Hashing(candidates) && Gathered(order, groups, candidates)
      ensures SettingsOf(settings, order, groups)
    {
      hide Gathered, GroupOf, Hashing, SettingsOf, HashesOf;
      NoSettings(groups);
      settings := [];
      var seen: set<string> := {};
      for k := 0 to |order|
        invariant HashesOf(settings, seen)
        invariant SettingsOf(settings, order[..k], groups)
      {
        GroupAt(order, groups, candidates, k);
        var g := groups[order[k]];
        assert order[..k + 1] == order[..k] + [order[k]];
        if g.signalHash !in seen {
          NewSetting(settings, order[..k], groups, order[k]);
          NewHash(settings, seen, g.key.signal);
          seen := seen + {g.signalHash};
          settings := settings + [g.key.signal];
        } else {
          SignalSeen(settings, seen, order, groups, candidates, k);
          OldSetting(settings, order[..k], groups, order[k]);
        }
      }
      assert order[..|order|] == order;
    }

    ghost predicate HashesOf(settings: seq<P>, seen: set<string>) {
      forall s | s in seen :: exists p :: p in settings && signalHash(p) == s
    }

    lemma {:induction false} NewHash(settings: seq<P>, seen: set<string>, p: P)
      requires HashesOf(settings, seen)
      ensures HashesOf(settings + [p], seen + {signalHash(p)})
    {
      assert p in settings + [p];
    }

    lemma NoSettings(groups: map<string, Group<C, P>>)
      ensures SettingsOf([], [], groups) && HashesOf([], {})
    {
    }

    lemma GroupAt(
      order: seq<string>, groups: map<string, Group<C, P>>, candidates: seq<C>, k: nat)
      requires Gathered(order, groups, candidates) && k < |order|
      ensures order[k] in groups && GroupOf(groups[order[k]], order[k], candidates)
      ensures groups[order[k]].signalHash == signalHash(groups[order[k]].key.signal)
    {
    }

    lemma OldSetting(
      settings: seq<P>, order: seq<string>, groups: map<string, Group<C, P>>, h: string)
      requires SettingsOf(settings, order, groups) && h in groups && groups[h].key.signal in settings
      ensures SettingsOf(settings, order + [h], groups)
    {
    }

    lemma {:induction false} NewSetting(
      settings: seq<P>, order: seq<string>, groups: map<string, Group<C, P>>, h: string)
      requires SettingsOf(settings, order, groups) && h in groups
      ensures SettingsOf(settings + [groups[h].key.signal], order + [h], groups)
    {
      assert h in order + [h];
    }

    /** Equal signal hashes of two groups mean equal signal settings. */
    lemma {:induction false} SignalSeen(
      settings: seq<P>, seen: set<string>, order: seq<string>, groups: map<string, Group<C, P>>,
      candidates: seq<C>, k: nat)
      requires Hashing(candidates) && Gathered(order, groups, candidates) && k < |order|
      requires SettingsOf(settings, order[..k], groups) && HashesOf(settings, seen)
      requires groups[order[k]].signalHash in seen
      ensures groups[order[k]].key.signal in settings
    {
      hide GroupOf;
      var g := groups[order[k]];
      var p :| p in settings && signalHash(p) == g.signalHash;
      var e :| e in order[..k] && e in groups && groups[e].key.signal == p;
      GroupAt(order, groups, candidates, k);
      SignalOfGroup(g, order[k], candidates);
      SignalOfGroup(groups[e], e, candidates);
    }

    lemma {:induction false} SignalOfGroup(g: Group<C, P>, h: string, candidates: seq<C>)
      requires GroupOf(g, h, candidates)
      ensures exists c :: c in candidates && signalOf(c) == g.key.signal && HashOf(c) == h
    {
      var c := g.rows[0];
      assert c == candidates[g.indices[0]] && KeyOf(c) == g.key;
    }

    lemma {:induction false} SettingsKeys(
      settings: seq<P>, order: seq<string>, groups: map<string, Group<C, P>>, candidates: seq<C>)
      requires Hashing(candidates) && Gathered(order, groups, candidates) && SettingsOf(settings, order, groups)
      ensures cache.Keys(settings) == SignalKeys(candidates)
    {
      hide GroupOf, Hashing, Survives, Gathered;
      forall s | s in cache.Keys(settings)
        ensures s in SignalKeys(candidates)
      {
        var p :| p in settings && cache.keyOf(p) == s;
        var h :| h in order && h in groups && groups[h].key.signal == p;
        GroupsSurvivor(order, groups, candidates, h);
      }
      forall s | s in SignalKeys(candidates)
        ensures s in cache.Keys(settings)
      {
        var c :| c in candidates && Survives(c) && cache.keyOf(signalOf(c)) == s;
        SurvivorsGroup(order, groups, candidates, c);
        GroupListed(order, groups, candidates, HashOf(c));
      }
    }

    lemma {:induction false} GroupListed(
      order: seq<string>, groups: map<string, Group<C, P>>, candidates: seq<C>, h: string)
      requires Gathered(order, groups, candidates) && h in groups
      ensures h in order
    {
      hide GroupOf;
    }

    lemma {:induction false} SettingsAllLive(
      settings: seq<P>, order: seq<string>, groups: map<string, Group<C, P>>, candidates: seq<C>)
      requires Gathered(order, groups, candidates) && SettingsOf(settings, order, groups)
      ensures (forall p | p in settings :: cache.Live(p)) ==> AllLive(groups)
    {
      hide GroupOf;
    }

    lemma {:induction false} SettingGone(
      settings: seq<P>, order: seq<string>, groups: map<string, Group<C, P>>, candidates: seq<C>)
      requires Gathered(order, groups, candidates) && SettingsOf(settings, order, groups)
      ensures (exists p :: p in settings && Gone(p)) ==> SomeGone(groups)
    {
      hide GroupOf, Gone;
    }

    lemma {:induction false} SettingsAreSignals(
      settings: seq<P>, order: seq<string>, groups: map<string, Group<C, P>>, candidates: seq<C>)
      requires Gathered(order, groups, candidates) && SettingsOf(settings, order, groups)
      ensures (forall p | p in settings :: cache.precompute(p).Some?)
        <==> (forall h | h in groups :: cache.precompute(groups[h].key.signal).Some?)
    {
      hide GroupOf;
    }

    /** `enriched_paths[s_hash]`. */
    method ByHash(settings: seq<P>, paths: map<string, Path<string>>) returns (bySignal: map<string, Path<string>>)
      requires forall p | p in settings :: cache.keyOf(p) in paths
      requires forall k | k in paths :: paths[k] == CacheFile(k)
      ensures forall p | p in settings :: signalHash(p) in bySignal
      ensures forall s | s in bySignal ::
        exists p :: p in settings && signalHash(p) == s && bySignal[s] == CacheFile(cache.keyOf(p))
    {
      bySignal := map[];
      for i := 0 to |settings|
        invariant forall p | p in settings[..i] :: signalHash(p) in bySignal
        invariant forall s | s in bySignal ::
          exists p :: p in settings && signalHash(p) == s && bySignal[s] == CacheFile(cache.keyOf(p))
      {
        assert settings[i] in settings;
        bySignal := bySignal[signalHash(settings[i]) := paths[cache.keyOf(settings[i])]];
      }
    }

    lemma {:induction false} GroupsEnriched(
      settings: seq<P>, order: seq<string>, groups: map<string, Group<C, P>>, candidates: seq<C>,
      bySignal: map<string, Path<string>>)
      requires Hashing(candidates) && Gathered(order, groups, candidates) && SettingsOf(settings, order, groups)
      requires forall p | p in settings :: signalHash(p) in bySignal
      requires forall s | s in bySignal ::
        exists p :: p in settings && signalHash(p) == s && bySignal[s] == CacheFile(cache.keyOf(p))
      ensures DataFor(groups, bySignal)
    {
      forall h | h in groups
        ensures groups[h].signalHash in bySignal
        ensures bySignal[groups[h].signalHash] == CacheFile(cache.keyOf(groups[h].key.signal))
      {
        assert GroupOf(groups[h], h, candidates);
        var s := groups[h].signalHash;
        var p :| p in settings && signalHash(p) == s && bySignal[s] == CacheFile(cache.keyOf(p));
        var e :| e in order && e in groups && groups[e].key.signal == p;
        SignalOfGroup(groups[h], h, candidates);
        SignalOfGroup(groups[e], e, candidates);
      }
    }

    // ----- specs and tasks -----

    /** A task carries its group and its group's own data. */
    ghost predicate Ready(t: Task<C, P, D>, candidates: seq<C>) {
      && |t.group.hash| == 16 && t.specStem == t.group.hash[..SPEC_CHARS]
      && GroupOf(t.group, t.group.hash, candidates) && Kept(t.group.hash)
      && cache.precompute(t.group.key.signal) == Some(t.data)
    }

    predicate Sixteen(hashes: seq<string>) {
      forall i | 0 <= i < |hashes| :: |hashes[i]| == 16
    }

    /** No two are of one group, and every spec file holds the spec of the last group
        that writes it. */
    ghost predicate Prepared(tasks: seq<Task<C, P, D>>, candidates: seq<C>)
      reads this`specFiles
    {
      && (forall k | 0 <= k < |tasks| :: Ready(tasks[k], candidates))
      && (forall j, k | 0 <= j < k < |tasks| :: tasks[j].group.hash != tasks[k].group.hash)
      && Sixteen(Hashes(tasks))
      && AllSpecsOnDisk(specFiles, tasks)
    }

    ghost predicate AllSpecsOnDisk(specs: map<string, S>, tasks: seq<Task<C, P, D>>)
      requires Sixteen(Hashes(tasks))
    {
      forall k | 0 <= k < |tasks| :: SpecOnDisk(specs, tasks, k)
    }

    ghost predicate SpecOnDisk(specs: map<string, S>, tasks: seq<Task<C, P, D>>, k: nat)
      requires k < |tasks| && Sixteen(Hashes(tasks))
    {
      && tasks[k].specStem in specs
      && specs[tasks[k].specStem] == specOf(tasks[LastSharing(Hashes(tasks), k, SPEC_CHARS)].group.key)
    }

    /** Third part of `_dispatch_grouped`: a spec file and a task per group. None if a group's
        enriched file cannot be read. */
    method Prepare(order: seq<string>, groups: map<string, Group<C, P>>, enriched: map<string, Path<string>>,
                   ghost candidates: seq<C>)
      returns (tasks: Option<seq<Task<C, P, D>>>)
      requires Hashing(candidates) && Gathered(order, groups, candidates) && cache.Honest()
      requires DataFor(groups, enriched)
      modifies this`specFiles
      ensures AllLive(groups) ==> tasks.Some?
      ensures tasks.Some? ==> forall h | h in groups :: cache.Usable(CacheFile(cache.keyOf(groups[h].key.signal)))
      ensures tasks.Some? ==> |tasks.value| == |order| && Prepared(tasks.value, candidates)
      ensures tasks.Some? ==> forall k | 0 <= k < |order| :: tasks.value[k].group == groups[order[k]]
      ensures tasks.Some? ==> forall k | 0 <= k < |order| ::
        |tasks.value[k].group.hash| == 16 && tasks.value[k].specStem == tasks.value[k].group.hash[..12]
    {
      hide GroupOf, Hashing, Ready, SpecOnDisk, DataFor, TasksOf;
      NoTasks(order, groups);
      var done: seq<Task<C, P, D>> := [];
      for k := 0 to |order|
        invariant TasksOf(done, order[..k], groups) && Prepared(done, candidates)
        invariant forall j | 0 <= j < k :: cache.Usable(CacheFile(cache.keyOf(groups[order[j]].key.signal)))
        invariant forall j | 0 <= j < |done| ::
          |done[j].group.hash| == 16 && done[j].specStem == done[j].group.hash[..12]
      {
        var h := order[k];
        var g := groups[h];
        GroupHash(g, h, candidates);
        PathOf(groups, enriched, h);
        var path := enriched[g.signalHash];
        if !cache.Usable(path) {
          return None;
        }
        var t := Task(g, cache.disk[path].content, h[..SPEC_CHARS]);
        OwnData(t, candidates, path);
        NextTask(done, order, groups, candidates, k, t);
        AddTask(done, t, candidates);
        specFiles := specFiles[t.specStem := specOf(g.key)];
        done := done + [t];
      }
      AllTasks(done, order, groups);
      tasks := Some(done);
    }

    /** The tasks are those of these groups, in order. */
    ghost predicate TasksOf(done: seq<Task<C, P, D>>, order: seq<string>, groups: map<string, Group<C, P>>) {
      && |done| == |order|
      && forall j | 0 <= j < |order| ::
        order[j] in groups && done[j].group == groups[order[j]] && done[j].group.hash == order[j]
    }

    lemma NoTasks(order: seq<string>, groups: map<string, Group<C, P>>)
      ensures TasksOf([], order[..0], groups)
    {
    }

    lemma {:induction false} NextTask(
      done: seq<Task<C, P, D>>, order: seq<string>, groups: map<string, Group<C, P>>, candidates: seq<C>, k: nat,
      t: Task<C, P, D>)
      requires Gathered(order, groups, candidates) && k < |order| && TasksOf(done, order[..k], groups)
      requires t.group == groups[order[k]] && t.group.hash == order[k]
      ensures TasksOf(done + [t], order[..k + 1], groups)
      ensures forall j | 0 <= j < |done| :: done[j].group.hash != t.group.hash
    {
      hide GroupOf;
      assert order[k] in order;
    }

    lemma AllTasks(done: seq<Task<C, P, D>>, order: seq<string>, groups: map<string, Group<C, P>>)
      requires TasksOf(done, order[..|order|], groups)
      ensures |done| == |order|
      ensures forall k | 0 <= k < |order| :: order[k] in groups && done[k].group == groups[order[k]]
    {
    }

    lemma PathOf(groups: map<string, Group<C, P>>, enriched: map<string, Path<string>>, h: string)
      requires DataFor(groups, enriched) && h in groups
      ensures groups[h].signalHash in enriched
      ensures enriched[groups[h].signalHash] == CacheFile(cache.keyOf(groups[h].key.signal))
    {
    }

    lemma {:induction false} GroupHash(g: Group<C, P>, h: string, candidates: seq<C>)
      requires Hashing(candidates) && GroupOf(g, h, candidates)
      ensures g.hash == h && |h| == 16
    {
      SignalOfGroup(g, h, candidates);
    }

    lemma OwnData(t: Task<C, P, D>, candidates: seq<C>, path: Path<string>)
      requires cache.Honest() && path == CacheFile(cache.keyOf(t.group.key.signal)) && cache.Usable(path)
      requires t.data == cache.disk[path].content
      requires |t.group.hash| == 16 && t.specStem == t.group.hash[..SPEC_CHARS]
      requires GroupOf(t.group, t.group.hash, candidates) && Kept(t.group.hash)
      ensures Ready(t, candidates)
    {
    }

    /** Writing one more spec file keeps every spec the one of its last writer. */
    lemma {:induction false} AddTask(done: seq<Task<C, P, D>>, t: Task<C, P, D>, candidates: seq<C>)
      requires Prepared(done, candidates) && Ready(t, candidates)
      requires forall j | 0 <= j < |done| :: done[j].group.hash != t.group.hash
      ensures Sixteen(Hashes(done + [t]))
      ensures AllSpecsOnDisk(specFiles[t.specStem := specOf(t.group.key)], done + [t])
    {
      hide GroupOf;
      var all, specs := done + [t], specFiles[t.specStem := specOf(t.group.key)];
      assert Hashes(all) == Hashes(done) + [t.group.hash];
      forall k | 0 <= k < |all|
        ensures SpecOnDisk(specs, all, k)
      {
        if k < |done| {
          assert SpecOnDisk(specFiles, done, k) && Ready(done[k], candidates);
          LastSharingSnoc(Hashes(done), t.group.hash, k, SPEC_CHARS);
        }
      }
    }

    // ----- runs -----

    function Directory(t: Task<C, P, D>): string
      requires |t.group.hash| == 16
    {
      t.group.hash[..DIRECTORY_CHARS]
    }

    /** What a successful run over a group's rows writes: a score per row, from the spec file
        as it is on disk. */
    function ScoresOf(t: Task<C, P, D>, f: nat): (r: seq<Score>)
      requires t.specStem in specFiles
      reads this`specFiles
      ensures |r| == |t.group.rows|
    {
      var spec, rows, data := specFiles[t.specStem], t.group.rows, t.data;
      seq(|rows|, k requires 0 <= k < |rows| => evaluate(spec, data, decode(rows[k]), f))
    }

    /** One successful or failed evaluator run over one group. */
    method RunFold(t: Task<C, P, D>, f: nat, result: RunResult)
      requires |t.group.hash| == 16 && t.specStem in specFiles
      modifies this`scoreFiles
      ensures scoreFiles == if result != Exit(0) then old(scoreFiles) else
        FilesAfter([Run(t.group.hash, f, ScoresOf(t, f))], old(scoreFiles))
      ensures scoreFiles == if result != Exit(0) then old(scoreFiles) else
        old(scoreFiles)[(Directory(t), f) := ScoresOf(t, f)]
    {
      if result == Exit(0) {
        scoreFiles := scoreFiles[(Directory(t), f) := ScoresOf(t, f)];
      }
    }

    /** `_read_fold_scores`. */
    function ReadFoldScores(directory: string, f: nat, n: nat): seq<Score>
      reads this`scoreFiles
    {
      if (directory, f) in scoreFiles then scoreFiles[(directory, f)] else seq(n, _ => NegInf)
    }

    /** The candidates of a task, each scored by itself. */
    function Own(t: Task<C, P, D>, f: nat): (r: seq<Score>)
      ensures |r| == |t.group.rows|
    {
      seq(|t.group.rows|, k requires 0 <= k < |t.group.rows| => Alone(t.group.rows[k], f))
    }

    /** The group that writes a directory last runs under its own spec, so its file holds its
        candidates' own scores. */
    lemma {:induction false} LastIsOwn(tasks: seq<Task<C, P, D>>, candidates: seq<C>, k: nat, f: nat)
      requires Prepared(tasks, candidates) && k < |tasks|
      ensures var j := LastSharing(Hashes(tasks), k, DIRECTORY_CHARS);
        tasks[j].specStem in specFiles && ScoresOf(tasks[j], f) == Own(tasks[j], f)
    {
      var j := LastSharing(Hashes(tasks), k, DIRECTORY_CHARS);
      LastIsLast(Hashes(tasks), k);
      assert SpecOnDisk(specFiles, tasks, j);
    }

    /** With different directories every task is last. */
    lemma AloneInDirectory(tasks: seq<Task<C, P, D>>, k: nat, j: nat)
      requires PrefixesDiffer(Hashes(tasks)) && k < |tasks| && j < |tasks|
      ensures Hashes(tasks)[j][..DIRECTORY_CHARS] == Hashes(tasks)[k][..DIRECTORY_CHARS] <==> j == k
    {
    }

    // ----- the manifest path: one run per fold for all groups -----

    /** Task k's file holds the scores of the last of the first tasks that share its directory. */
    ghost predicate HeldByLast(
      files: map<(string, nat), seq<Score>>, tasks: seq<Task<C, P, D>>, upto: nat, k: nat, f: nat)
      requires k < upto <= |tasks| && Sixteen(Hashes(tasks))
      reads this`specFiles
    {
      var j := LastSharing(Hashes(tasks)[..upto], k, DIRECTORY_CHARS);
      var file := (Hashes(tasks)[k][..DIRECTORY_CHARS], f);
      tasks[j].specStem in specFiles && file in files && files[file] == ScoresOf(tasks[j], f)
    }

    ghost predicate AllHeldByLast(
      files: map<(string, nat), seq<Score>>, tasks: seq<Task<C, P, D>>, upto: nat, f: nat)
      requires upto <= |tasks| && Sixteen(Hashes(tasks))
      reads this`specFiles
    {
      forall k | 0 <= k < upto :: HeldByLast(files, tasks, upto, k, f)
    }

    /** Only files of one fold changed. */
    ghost predicate OtherFolds(before: map<(string, nat), seq<Score>>, after: map<(string, nat), seq<Score>>, f: nat) {
      forall d: string, e: nat | e != f && (d, e) in before :: (d, e) in after && after[(d, e)] == before[(d, e)]
    }

    /** The evaluator works through the manifest of one fold in order. */
    method RunManifest(tasks: seq<Task<C, P, D>>, ghost candidates: seq<C>, f: nat, result: RunResult)
      requires Prepared(tasks, candidates)
      modifies this`scoreFiles
      ensures result == Exit(0) ==> AllHeldByLast(scoreFiles, tasks, |tasks|, f)
      ensures OtherFolds(old(scoreFiles), scoreFiles, f)
    {
      hide Ready, AllSpecsOnDisk, AllHeldByLast, ScoresOf;
      NoneHeld(tasks, f);
      for g := 0 to |tasks|
        invariant result == Exit(0) ==> AllHeldByLast(scoreFiles, tasks, g, f)
        invariant OtherFolds(old(scoreFiles), scoreFiles, f)
      {
        SpecExists(tasks, candidates, g);
        ghost var before := scoreFiles;
        RunFold(tasks[g], f, result);
        if result == Exit(0) {
          ManifestStep(before, tasks, candidates, g, f);
        }
      }
    }

    lemma NoneHeld(tasks: seq<Task<C, P, D>>, f: nat)
      requires Sixteen(Hashes(tasks))
      ensures AllHeldByLast(scoreFiles, tasks, 0, f)
    {
    }

    lemma {:induction false} ManifestStep(
      files: map<(string, nat), seq<Score>>, tasks: seq<Task<C, P, D>>, candidates: seq<C>, g: nat, f: nat)
      requires Prepared(tasks, candidates) && g < |tasks| && AllHeldByLast(files, tasks, g, f)
      requires tasks[g].specStem in specFiles && |tasks[g].group.hash| == 16
      ensures AllHeldByLast(files[(Directory(tasks[g]), f) := ScoresOf(tasks[g], f)], tasks, g + 1, f)
    {
      hide Ready, AllSpecsOnDisk, ScoresOf;
      var hashes := Hashes(tasks);
      var after := files[(Directory(tasks[g]), f) := ScoresOf(tasks[g], f)];
      assert hashes[..g + 1] == hashes[..g] + [hashes[g]];
      var upto := g + 1;
      forall k | 0 <= k < upto
        ensures HeldByLast(after, tasks, upto, k, f)
      {
        if k < g {
          assert HeldByLast(files, tasks, g, k, f);
          LastSharingSnoc(hashes[..g], hashes[g], k, DIRECTORY_CHARS);
        }
      }
    }

    lemma {:induction false} SpecExists(tasks: seq<Task<C, P, D>>, candidates: seq<C>, g: nat)
      requires Prepared(tasks, candidates) && g < |tasks|
      ensures tasks[g].specStem in specFiles && |tasks[g].group.hash| == 16
    {
      assert SpecOnDisk(specFiles, tasks, g);
    }

    /** Whether task k's matrix takes the score vector it finds, on any successful fold. */
    predicate TakesLast(tasks: seq<Task<C, P, D>>, k: nat)
      requires k < |tasks| && Sixteen(Hashes(tasks))
    {
      var last := |tasks[LastSharing(Hashes(tasks), k, DIRECTORY_CHARS)].group.rows|;
      last == |tasks[k].group.rows| || last == 1
    }

    /** The scores task k reads: those of the last task of its directory, broadcast if there is
        only one. */
    ghost function ReadByManifest(tasks: seq<Task<C, P, D>>, candidates: seq<C>, k: nat, f: nat): (r: seq<Score>)
      requires Prepared(tasks, candidates) && k < |tasks| && TakesLast(tasks, k)
      reads this`specFiles
      ensures |r| == |tasks[k].group.rows|
    {
      LastIsOwn(tasks, candidates, k, f);
      Broadcast(Own(tasks[LastSharing(Hashes(tasks), k, DIRECTORY_CHARS)], f), |tasks[k].group.rows|)
    }

    function Failed(n: nat): (r: seq<Score>)
      ensures |r| == n
    {
      seq(n, _ => NegInf)
    }

    /** Column f of the matrix is this vector. */
    predicate HasColumn(m: Matrix, f: nat, scores: seq<Score>) {
      |m| == |scores| && forall i | 0 <= i < |m| :: f < |m[i]| && m[i][f] == scores[i]
    }

    lemma SetOneColumn(m: Matrix, f: nat, scores: seq<Score>, n: nat, folds: nat)
      requires Shaped(m, n, folds) && f < folds && |scores| == n
      ensures Shaped(SetColumn(m, f, scores), n, folds) && HasColumn(SetColumn(m, f, scores), f, scores)
      ensures forall e: nat, others: seq<Score> | e < folds && e != f && HasColumn(m, e, others) ::
        HasColumn(SetColumn(m, f, scores), e, others)
    {
    }

    predicate Succeeds(t: Task<C, P, D>, f: nat, exits: (string, nat) -> RunResult) {
      exits(t.group.hash, f) == Exit(0)
    }

    /** What the manifest path has put in column f of task k's matrix. */
    ghost predicate ManifestColumn(
      m: Matrix, tasks: seq<Task<C, P, D>>, candidates: seq<C>, k: nat, f: nat, upto: nat,
      exits: (string, nat) -> RunResult)
      requires Prepared(tasks, candidates) && k < |tasks|
      reads this`specFiles
    {
      if f < upto && Succeeds(tasks[k], f, exits) then
        TakesLast(tasks, k) && HasColumn(m, f, ReadByManifest(tasks, candidates, k, f))
      else HasColumn(m, f, Failed(|tasks[k].group.rows|))
    }

    ghost predicate ManifestColumns(
      m: Matrix, tasks: seq<Task<C, P, D>>, candidates: seq<C>, k: nat, folds: nat, upto: nat,
      exits: (string, nat) -> RunResult)
      requires Prepared(tasks, candidates) && k < |tasks|
      reads this`specFiles
    {
      && Shaped(m, |tasks[k].group.rows|, folds)
      && (forall f: nat | f < folds :: ManifestColumn(m, tasks, candidates, k, f, upto, exits))
    }

    lemma {:induction false} ManifestStart(
      tasks: seq<Task<C, P, D>>, candidates: seq<C>, k: nat, folds: nat, exits: (string, nat) -> RunResult)
      requires Prepared(tasks, candidates) && k < |tasks|
      ensures ManifestColumns(Filled(|tasks[k].group.rows|, folds), tasks, candidates, k, folds, 0, exits)
    {
      hide Ready, AllSpecsOnDisk, ReadByManifest;
    }

    /** `result_matrices[g_hash][:, fold_idx] = scores`; None where numpy refuses the shape. */
    method ReadColumn(tasks: seq<Task<C, P, D>>, ghost candidates: seq<C>, k: nat, f: nat, m: Matrix, folds: nat,
                      exits: (string, nat) -> RunResult)
      returns (r: Option<Matrix>)
      requires Prepared(tasks, candidates) && k < |tasks| && f < folds
      requires Succeeds(tasks[k], f, exits) ==> AllHeldByLast(scoreFiles, tasks, |tasks|, f)
      requires ManifestColumns(m, tasks, candidates, k, folds, f, exits)
      ensures r.None? <==> Succeeds(tasks[k], f, exits) && !TakesLast(tasks, k)
      ensures r.Some? ==> ManifestColumns(r.value, tasks, candidates, k, folds, f + 1, exits)
    {
      hide Ready, AllSpecsOnDisk, HasColumn, ReadByManifest, TakesLast, Own, ScoresOf;
      if exits(tasks[k].group.hash, f) != Exit(0) {
        NextColumn(m, m, tasks, candidates, k, f, folds, exits);
        return Some(m);
      }
      var n := |tasks[k].group.rows|;
      SpecExists(tasks, candidates, k);
      var scores := ReadFoldScores(Directory(tasks[k]), f, n);
      ReadsLast(tasks, candidates, k, f);
      if !Fits(scores, n) {
        return None;
      }
      SetOneColumn(m, f, Broadcast(scores, n), n, folds);
      NextColumn(m, SetColumn(m, f, Broadcast(scores, n)), tasks, candidates, k, f, folds, exits);
      r := Some(SetColumn(m, f, Broadcast(scores, n)));
    }

    lemma {:induction false} NextColumn(
      m: Matrix, r: Matrix, tasks: seq<Task<C, P, D>>, candidates: seq<C>, k: nat, f: nat, folds: nat,
      exits: (string, nat) -> RunResult)
      requires Prepared(tasks, candidates) && k < |tasks| && f < folds
      requires ManifestColumns(m, tasks, candidates, k, folds, f, exits) && Shaped(r, |tasks[k].group.rows|, folds)
      requires if Succeeds(tasks[k], f, exits)
        then TakesLast(tasks, k) && HasColumn(r, f, ReadByManifest(tasks, candidates, k, f))
        else r == m
      requires forall e: nat, others: seq<Score> | e < folds && e != f && HasColumn(m, e, others) ::
        HasColumn(r, e, others)
      ensures ManifestColumns(r, tasks, candidates, k, folds, f + 1, exits)
    {
      hide Ready, AllSpecsOnDisk, HasColumn, ReadByManifest, TakesLast;
      var upto := f + 1;
      forall e: nat | e < folds
        ensures ManifestColumn(r, tasks, candidates, k, e, upto, exits)
      {
        assert ManifestColumn(m, tasks, candidates, k, e, f, exits);
      }
    }

    lemma {:induction false} ReadsLast(tasks: seq<Task<C, P, D>>, candidates: seq<C>, k: nat, f: nat)
      requires Prepared(tasks, candidates) && k < |tasks| && AllHeldByLast(scoreFiles, tasks, |tasks|, f)
      ensures |tasks[k].group.hash| == 16
      ensures var scores := ReadFoldScores(Directory(tasks[k]), f, |tasks[k].group.rows|);
        && (TakesLast(tasks, k) <==> Fits(scores, |tasks[k].group.rows|))
        && (TakesLast(tasks, k) ==>
              ReadByManifest(tasks, candidates, k, f) == Broadcast(scores, |tasks[k].group.rows|))
    {
      hide Ready, AllSpecsOnDisk, ScoresOf, Own;
      assert HeldByLast(scoreFiles, tasks, |tasks|, k, f);
      assert Hashes(tasks)[..|tasks|] == Hashes(tasks);
      assert |Hashes(tasks)[k]| == 16;
      LastIsOwn(tasks, candidates, k, f);
    }

    /** The end of `dispatch_generation_multi_group`: folds outside, groups inside. */
    method ReadManifest(tasks: seq<Task<C, P, D>>, ghost candidates: seq<C>, folds: nat,
                        exits: (string, nat) -> RunResult)
      returns (results: Option<map<string, Matrix>>)
      requires Prepared(tasks, candidates)
      requires forall k, f: nat | 0 <= k < |tasks| && f < folds && Succeeds(tasks[k], f, exits) ::
        AllHeldByLast(scoreFiles, tasks, |tasks|, f)
      ensures results.None? ==> exists k :: 0 <= k < |tasks| && !TakesLast(tasks, k)
      ensures results.Some? ==>
        forall k | 0 <= k < |tasks| :: AtColumn(results.value, tasks, candidates, k, folds, folds, exits)
    {
      hide Ready, AllSpecsOnDisk, ManifestColumns, AllHeldByLast;
      var matrices: map<string, Matrix> := map[];
      for g := 0 to |tasks|
        invariant forall h | 0 <= h < g :: AtColumn(matrices, tasks, candidates, h, folds, 0, exits)
      {
        ManifestStart(tasks, candidates, g, folds, exits);
        ghost var before := matrices;
        matrices := matrices[tasks[g].group.hash := Filled(|tasks[g].group.rows|, folds)];
        forall h | 0 <= h < g
          ensures AtColumn(matrices, tasks, candidates, h, folds, 0, exits)
        {
          OtherMatrix(before, tasks, candidates, g, Filled(|tasks[g].group.rows|, folds), h, folds, 0, exits);
        }
      }
      for f := 0 to folds
        invariant forall h | 0 <= h < |tasks| :: AtColumn(matrices, tasks, candidates, h, folds, f, exits)
      {
        ghost var next := f + 1;
        for g := 0 to |tasks|
          invariant forall h | 0 <= h < g :: AtColumn(matrices, tasks, candidates, h, folds, next, exits)
          invariant forall h | g <= h < |tasks| :: AtColumn(matrices, tasks, candidates, h, folds, f, exits)
        {
          assert AtColumn(matrices, tasks, candidates, g, folds, f, exits);
          var m := ReadColumn(tasks, candidates, g, f, matrices[tasks[g].group.hash], folds, exits);
          if m.None? {
            return None;
          }
          ghost var before := matrices;
          matrices := matrices[tasks[g].group.hash := m.value];
          forall h | 0 <= h < g
            ensures AtColumn(matrices, tasks, candidates, h, folds, next, exits)
          {
            OtherMatrix(before, tasks, candidates, g, m.value, h, folds, next, exits);
          }
          forall h | g < h < |tasks|
            ensures AtColumn(matrices, tasks, candidates, h, folds, f, exits)
          {
            OtherMatrix(before, tasks, candidates, g, m.value, h, folds, f, exits);
          }
        }
      }
      results := Some(matrices);
    }

    /** Entering one group's matrix leaves the others'. */
    lemma {:induction false} OtherMatrix(
      matrices: map<string, Matrix>, tasks: seq<Task<C, P, D>>, candidates: seq<C>, g: nat, m: Matrix, h: nat,
      folds: nat, upto: nat, exits: (string, nat) -> RunResult)
      requires Prepared(tasks, candidates) && g < |tasks| && h < |tasks| && h != g
      requires AtColumn(matrices, tasks, candidates, h, folds, upto, exits)
      ensures AtColumn(matrices[tasks[g].group.hash := m], tasks, candidates, h, folds, upto, exits)
    {
      hide Ready, AllSpecsOnDisk, ManifestColumns;
    }

    ghost predicate AtColumn(
      results: map<string, Matrix>, tasks: seq<Task<C, P, D>>, candidates: seq<C>, k: nat, folds: nat, upto: nat,
      exits: (string, nat) -> RunResult)
      requires Prepared(tasks, candidates) && k < |tasks|
      reads this`specFiles
    {
      && tasks[k].group.hash in results
      && ManifestColumns(results[tasks[k].group.hash], tasks, candidates, k, folds, upto, exits)
    }

    /** The manifest path: one run per fold for all groups, folds in any order; then every
        group's column of every successful fold is read back. Exactly: a group gets the scores
        of the last group of its directory; the path raises only where such a vector does not
        fit. */
    method DispatchManifest(tasks: seq<Task<C, P, D>>, ghost candidates: seq<C>, folds: nat,
                            exits: (string, nat) -> RunResult)
      returns (results: Option<map<string, Matrix>>)
      requires Prepared(tasks, candidates)
      requires forall g, h, f :: exits(g, f) == exits(h, f)
      modifies this`scoreFiles
      ensures results.None? ==> exists k :: 0 <= k < |tasks| && !TakesLast(tasks, k)
      ensures results.Some? ==>
        forall k | 0 <= k < |tasks| :: AtColumn(results.value, tasks, candidates, k, folds, folds, exits)
    {
      hide Ready, AllSpecsOnDisk, AllHeldByLast, AtColumn;
      var pending: set<nat> := Below(folds);
      while |pending| > 0
        invariant forall f | f in pending :: f < folds
        invariant forall f: nat | f < folds && f !in pending && exits("", f) == Exit(0) ::
          AllHeldByLast(scoreFiles, tasks, |tasks|, f)
        decreases |pending|
      {
        var f :| f in pending;
        ghost var before := scoreFiles;
        RunManifest(tasks, candidates, f, exits("", f));
        forall e: nat | e < folds && e !in pending && exits("", e) == Exit(0)
          ensures AllHeldByLast(scoreFiles, tasks, |tasks|, e)
        {
          HeldElsewhere(before, tasks, f, e);
        }
        pending := pending - {f};
      }
      results := ReadManifest(tasks, candidates, folds, exits);
    }

    lemma {:induction false} HeldElsewhere(
      before: map<(string, nat), seq<Score>>, tasks: seq<Task<C, P, D>>, f: nat, e: nat)
      requires Sixteen(Hashes(tasks)) && AllHeldByLast(before, tasks, |tasks|, e)
      requires OtherFolds(before, scoreFiles, f) && e != f
      ensures AllHeldByLast(scoreFiles, tasks, |tasks|, e)
    {
      forall k | 0 <= k < |tasks|
        ensures HeldByLast(scoreFiles, tasks, |tasks|, k, e)
      {
        assert HeldByLast(before, tasks, |tasks|, k, e);
      }
    }

    // ----- the per-group path: one run per group and fold -----

    predicate Share(tasks: seq<Task<C, P, D>>, j: nat, k: nat)
      requires j < |tasks| && k < |tasks| && Sixteen(Hashes(tasks))
    {
      Hashes(tasks)[j][..DIRECTORY_CHARS] == Hashes(tasks)[k][..DIRECTORY_CHARS]
    }

    /** Task k's file holds the scores of task j, which shares its directory. */
    ghost predicate HeldBy(
      files: map<(string, nat), seq<Score>>, tasks: seq<Task<C, P, D>>, k: nat, f: nat, j: nat)
      requires j < |tasks| && k < |tasks| && Sixteen(Hashes(tasks))
      reads this`specFiles
    {
      var file := (Hashes(tasks)[k][..DIRECTORY_CHARS], f);
      Share(tasks, j, k) && tasks[j].specStem in specFiles && file in files && files[file] == ScoresOf(tasks[j], f)
    }

    ghost predicate HeldBySome(files: map<(string, nat), seq<Score>>, tasks: seq<Task<C, P, D>>, k: nat, f: nat)
      requires k < |tasks| && Sixteen(Hashes(tasks))
      reads this`specFiles
    {
      exists j: nat :: j < |tasks| && HeldBy(files, tasks, k, f, j)
    }

    /** Every finished successful run left scores in its file: its own, or those of a later run
        of a group that shares its directory. */
    ghost predicate AllHeld(
      files: map<(string, nat), seq<Score>>, tasks: seq<Task<C, P, D>>, folds: nat, exits: (string, nat) -> RunResult,
      pending: set<(nat, nat)>)
      requires Sixteen(Hashes(tasks))
      reads this`specFiles
    {
      forall g: nat, f: nat | g < |tasks| && f < folds && (g, f) !in pending && Succeeds(tasks[g], f, exits) ::
        HeldBySome(files, tasks, g, f)
    }

    // ----- schedules -----

    /** Every task can run. */
    ghost predicate Runnable(tasks: seq<Task<C, P, D>>)
      reads this`specFiles
    {
      Sixteen(Hashes(tasks)) && forall k | 0 <= k < |tasks| :: tasks[k].specStem in specFiles
    }

    lemma {:induction false} PreparedIsRunnable(tasks: seq<Task<C, P, D>>, candidates: seq<C>)
      requires Prepared(tasks, candidates)
      ensures Runnable(tasks)
    {
      hide Ready;
      forall k | 0 <= k < |tasks|
        ensures tasks[k].specStem in specFiles
      {
        assert SpecOnDisk(specFiles, tasks, k);
      }
    }

    predicate InRange(tasks: seq<Task<C, P, D>>, order: seq<(nat, nat)>) {
      forall i | 0 <= i < |order| :: order[i].0 < |tasks|
    }

    ghost function RunOf(tasks: seq<Task<C, P, D>>, run: (nat, nat)): (r: Run)
      requires Runnable(tasks) && run.0 < |tasks|
      reads this`specFiles
      ensures |r.hash| == 16
    {
      assert |Hashes(tasks)[run.0]| == 16;
      Run(Hashes(tasks)[run.0], run.1, ScoresOf(tasks[run.0], run.1))
    }

    /** The successful runs of groups on folds, in order, as writers of score files. */
    ghost function RunsOfOrder(tasks: seq<Task<C, P, D>>, order: seq<(nat, nat)>): (runs: seq<Run>)
      requires Runnable(tasks) && InRange(tasks, order)
      reads this`specFiles
      ensures Named(runs) && |runs| == |order|
      ensures forall i | 0 <= i < |order| :: runs[i] == RunOf(tasks, order[i])
    {
      if |order| == 0 then [] else
        var n := |order| - 1;
        RunsOfOrder(tasks, order[..n]) + [RunOf(tasks, order[n])]
    }

    /** The score files after these runs. */
    ghost function FilesOf(
      tasks: seq<Task<C, P, D>>, order: seq<(nat, nat)>, files: map<(string, nat), seq<Score>>):
      map<(string, nat), seq<Score>>
      requires Runnable(tasks) && InRange(tasks, order)
      reads this`specFiles
    {
      FilesAfter(RunsOfOrder(tasks, order), files)
    }

    lemma {:induction false} OneRunMore(
      tasks: seq<Task<C, P, D>>, order: seq<(nat, nat)>, run: (nat, nat), files: map<(string, nat), seq<Score>>)
      requires Runnable(tasks) && InRange(tasks, order) && run.0 < |tasks|
      ensures InRange(tasks, order + [run])
      ensures FilesOf(tasks, order + [run], files) ==
        FilesOf(tasks, order, files)[FileOf(RunOf(tasks, run)) := RunOf(tasks, run).scores]
    {
      hide RunOf;
      assert (order + [run])[..|order|] == order;
      assert RunsOfOrder(tasks, order + [run])[..|order|] == RunsOfOrder(tasks, order);
    }

    /** A schedule: the successful runs, each once, in any order. */
    ghost predicate Schedule(
      tasks: seq<Task<C, P, D>>, folds: nat, exits: (string, nat) -> RunResult, order: seq<(nat, nat)>)
    {
      Listed(tasks, folds, exits, order, {})
    }

    /** Those of them that are not pending. */
    ghost predicate Listed(
      tasks: seq<Task<C, P, D>>, folds: nat, exits: (string, nat) -> RunResult, order: seq<(nat, nat)>,
      pending: set<(nat, nat)>)
    {
      && InRange(tasks, order)
      && (forall i, j | 0 <= i < j < |order| :: order[i] != order[j])
      && (forall run | run in order :: IsRun(tasks, folds, exits, run) && run !in pending)
      && (forall run | IsRun(tasks, folds, exits, run) && run !in pending :: run in order)
    }

    predicate IsRun(tasks: seq<Task<C, P, D>>, folds: nat, exits: (string, nat) -> RunResult, run: (nat, nat)) {
      run.0 < |tasks| && run.1 < folds && Succeeds(tasks[run.0], run.1, exits)
    }

    lemma NothingListed(
      tasks: seq<Task<C, P, D>>, folds: nat, exits: (string, nat) -> RunResult)
      ensures Listed(tasks, folds, exits, [], AllRuns(|tasks|, folds))
    {
    }

    lemma {:induction false} ListNext(
      tasks: seq<Task<C, P, D>>, folds: nat, exits: (string, nat) -> RunResult, order: seq<(nat, nat)>,
      pending: set<(nat, nat)>, run: (nat, nat))
      requires Listed(tasks, folds, exits, order, pending) && run in pending
      ensures Listed(
        tasks, folds, exits, if IsRun(tasks, folds, exits, run) then order + [run] else order, pending - {run})
    {
      hide IsRun;
      if IsRun(tasks, folds, exits, run) {
        assert run !in order;
        assert run.0 < |tasks| by {
          RunInRange(tasks, folds, exits, run);
        }
        assert run in order + [run];
      }
    }

    lemma RunInRange(
      tasks: seq<Task<C, P, D>>, folds: nat, exits: (string, nat) -> RunResult, run: (nat, nat))
      requires IsRun(tasks, folds, exits, run)
      ensures run.0 < |tasks|
    {
    }

    /** Column f of task k's matrix is what these files hold for it. */
    ghost predicate ColumnRead(
      files: map<(string, nat), seq<Score>>, m: Matrix, tasks: seq<Task<C, P, D>>, k: nat, f: nat)
      requires k < |tasks| && Sixteen(Hashes(tasks))
    {
      var file, n := (Hashes(tasks)[k][..DIRECTORY_CHARS], f), |tasks[k].group.rows|;
      file in files && Fits(files[file], n) && HasColumn(m, f, Broadcast(files[file], n))
    }

    ghost predicate ColumnsRead(
      files: map<(string, nat), seq<Score>>, m: Matrix, tasks: seq<Task<C, P, D>>, k: nat, upto: nat,
      exits: (string, nat) -> RunResult)
      requires k < |tasks| && Sixteen(Hashes(tasks))
    {
      forall f: nat | f < upto && Succeeds(tasks[k], f, exits) :: ColumnRead(files, m, tasks, k, f)
    }

    /** Task k was read after the first n runs, its own among them. */
    ghost predicate ReadAt(
      m: Matrix, tasks: seq<Task<C, P, D>>, k: nat, folds: nat, exits: (string, nat) -> RunResult,
      order: seq<(nat, nat)>, n: nat, files: map<(string, nat), seq<Score>>)
      requires Runnable(tasks) && InRange(tasks, order) && k < |tasks|
      reads this`specFiles
    {
      && n <= |order|
      && (forall f: nat | f < folds && Succeeds(tasks[k], f, exits) :: (k, f) in order[..n])
      && ColumnsRead(FilesOf(tasks, order[..n], files), m, tasks, k, folds, exits)
    }

    lemma {:induction false} ReadEarlier(
      m: Matrix, tasks: seq<Task<C, P, D>>, k: nat, folds: nat, exits: (string, nat) -> RunResult,
      order: seq<(nat, nat)>, n: nat, files: map<(string, nat), seq<Score>>, run: (nat, nat))
      requires Runnable(tasks) && InRange(tasks, order + [run]) && InRange(tasks, order) && k < |tasks|
      requires ReadAt(m, tasks, k, folds, exits, order, n, files)
      ensures ReadAt(m, tasks, k, folds, exits, order + [run], n, files)
    {
      hide ColumnsRead, FilesOf;
      assert (order + [run])[..n] == order[..n];
    }

    lemma {:induction false} ReadLast(
      m: Matrix, tasks: seq<Task<C, P, D>>, k: nat, folds: nat, exits: (string, nat) -> RunResult,
      order: seq<(nat, nat)>, pending: set<(nat, nat)>, files: map<(string, nat), seq<Score>>)
      requires Runnable(tasks) && k < |tasks| && Listed(tasks, folds, exits, order, pending)
      requires forall f: nat | f < folds :: (k, f) !in pending
      requires ColumnsRead(FilesOf(tasks, order, files), m, tasks, k, folds, exits)
      ensures ReadAt(m, tasks, k, folds, exits, order, |order|, files)
    {
      hide ColumnsRead, FilesOf;
      assert order[..|order|] == order;
      forall f: nat | f < folds && Succeeds(tasks[k], f, exits)
        ensures (k, f) in order[..|order|]
      {
        assert IsRun(tasks, folds, exits, (k, f));
      }
    }

    /** One run of any group and fold, whatever ran before it. */
    method RunNext(tasks: seq<Task<C, P, D>>, ghost candidates: seq<C>, folds: nat,
                   exits: (string, nat) -> RunResult, g: nat, f: nat, ghost pending: set<(nat, nat)>)
      requires Prepared(tasks, candidates) && g < |tasks| && f < folds
      requires AllHeld(scoreFiles, tasks, folds, exits, pending)
      modifies this`scoreFiles
      ensures AllHeld(scoreFiles, tasks, folds, exits, pending - {(g, f)})
      ensures Runnable(tasks)
      ensures scoreFiles == if !IsRun(tasks, folds, exits, (g, f)) then old(scoreFiles) else
        old(scoreFiles)[FileOf(RunOf(tasks, (g, f))) := RunOf(tasks, (g, f)).scores]
    {
      hide Ready, AllSpecsOnDisk, ScoresOf, HeldBySome;
      PreparedIsRunnable(tasks, candidates);
      SpecExists(tasks, candidates, g);
      ghost var before := scoreFiles;
      RunFold(tasks[g], f, exits(tasks[g].group.hash, f));
      forall h: nat, e: nat | h < |tasks| && e < folds && (h, e) !in pending - {(g, f)} && Succeeds(tasks[h], e, exits)
        ensures HeldBySome(scoreFiles, tasks, h, e)
      {
        if Succeeds(tasks[g], f, exits) {
          if (h, e) != (g, f) {
            HeldAfterRun(before, tasks, g, f, h, e);
          } else {
            HeldByItself(before, tasks, g, f);
          }
        }
      }
    }

    lemma {:induction false} HeldAfterRun(
      before: map<(string, nat), seq<Score>>, tasks: seq<Task<C, P, D>>, g: nat, f: nat, h: nat, e: nat)
      requires Sixteen(Hashes(tasks)) && g < |tasks| && h < |tasks|
      requires |tasks[g].group.hash| == 16 && tasks[g].specStem in specFiles
      requires HeldBySome(before, tasks, h, e)
      ensures HeldBySome(before[(Directory(tasks[g]), f) := ScoresOf(tasks[g], f)], tasks, h, e)
    {
      hide ScoresOf;
      var after := before[(Directory(tasks[g]), f) := ScoresOf(tasks[g], f)];
      var j: nat :| j < |tasks| && HeldBy(before, tasks, h, e, j);
      if e == f && Share(tasks, g, h) {
        assert HeldBy(after, tasks, h, e, g);
      } else {
        assert HeldBy(after, tasks, h, e, j);
      }
    }

    lemma {:induction false} HeldByItself(
      before: map<(string, nat), seq<Score>>, tasks: seq<Task<C, P, D>>, g: nat, f: nat)
      requires Sixteen(Hashes(tasks)) && g < |tasks|
      requires |tasks[g].group.hash| == 16 && tasks[g].specStem in specFiles
      ensures HeldBySome(before[(Directory(tasks[g]), f) := ScoresOf(tasks[g], f)], tasks, g, f)
    {
      hide ScoresOf;
      assert HeldBy(before[(Directory(tasks[g]), f) := ScoresOf(tasks[g], f)], tasks, g, f, g);
    }

    /** Column f of task k's matrix: the scores of some task of its directory, itself perhaps. */
    ghost predicate SharedColumn(m: Matrix, tasks: seq<Task<C, P, D>>, k: nat, f: nat, j: nat)
      requires j < |tasks| && k < |tasks| && Sixteen(Hashes(tasks))
      reads this`specFiles
    {
      && Share(tasks, j, k) && tasks[j].specStem in specFiles
      && Fits(ScoresOf(tasks[j], f), |tasks[k].group.rows|)
      && HasColumn(m, f, Broadcast(ScoresOf(tasks[j], f), |tasks[k].group.rows|))
    }

    ghost predicate GroupColumn(
      m: Matrix, tasks: seq<Task<C, P, D>>, k: nat, f: nat, upto: nat, exits: (string, nat) -> RunResult)
      requires k < |tasks| && Sixteen(Hashes(tasks))
      reads this`specFiles
    {
      if f < upto && Succeeds(tasks[k], f, exits) then
        exists j: nat :: j < |tasks| && SharedColumn(m, tasks, k, f, j)
      else HasColumn(m, f, Failed(|tasks[k].group.rows|))
    }

    ghost predicate GroupColumns(
      m: Matrix, tasks: seq<Task<C, P, D>>, k: nat, folds: nat, upto: nat, exits: (string, nat) -> RunResult)
      requires k < |tasks| && Sixteen(Hashes(tasks))
      reads this`specFiles
    {
      && Shaped(m, |tasks[k].group.rows|, folds)
      && (forall f: nat | f < folds :: GroupColumn(m, tasks, k, f, upto, exits))
    }

    /** Some task of k's directory has a number of rows that k's matrix does not take. */
    predicate Misfit(tasks: seq<Task<C, P, D>>, k: nat, j: nat)
      requires j < |tasks| && k < |tasks| && Sixteen(Hashes(tasks))
    {
      Share(tasks, j, k) && |tasks[j].group.rows| != |tasks[k].group.rows| && |tasks[j].group.rows| != 1
    }

    ghost predicate AnyMisfit(tasks: seq<Task<C, P, D>>)
      requires Sixteen(Hashes(tasks))
    {
      exists k: nat, j: nat :: k < |tasks| && j < |tasks| && Misfit(tasks, k, j)
    }

    /** The end of `dispatch_generation`; None where numpy refuses the shape. */
    method ReadTask(tasks: seq<Task<C, P, D>>, ghost candidates: seq<C>, g: nat, folds: nat,
                    exits: (string, nat) -> RunResult)
      returns (r: Option<Matrix>)
      requires Prepared(tasks, candidates) && g < |tasks|
      requires forall f: nat | f < folds && Succeeds(tasks[g], f, exits) :: HeldBySome(scoreFiles, tasks, g, f)
      ensures r.None? ==> AnyMisfit(tasks)
      ensures r.Some? ==> GroupColumns(r.value, tasks, g, folds, folds, exits)
      ensures r.Some? ==> ColumnsRead(scoreFiles, r.value, tasks, g, folds, exits)
    {
      hide Ready, AllSpecsOnDisk, GroupColumns, HeldBySome, ColumnsRead;
      var n := |tasks[g].group.rows|;
      var m := Filled(n, folds);
      GroupStart(tasks, g, folds, exits);
      NothingRead(m, tasks, g, exits);
      for f := 0 to folds
        invariant Shaped(m, n, folds) && GroupColumns(m, tasks, g, folds, f, exits)
        invariant ColumnsRead(scoreFiles, m, tasks, g, f, exits)
      {
        if exits(tasks[g].group.hash, f) == Exit(0) {
          SpecExists(tasks, candidates, g);
          var scores := ReadFoldScores(Directory(tasks[g]), f, n);
          ghost var j := ReadsSharer(tasks, g, f, scores);
          if !Fits(scores, n) {
            assert Misfit(tasks, g, j);
            return None;
          }
          SetOneColumn(m, f, Broadcast(scores, n), n, folds);
          NextShared(m, tasks, g, f, folds, j, scores, exits);
          NextRead(m, tasks, g, f, folds, scores, exits);
          m := SetColumn(m, f, Broadcast(scores, n));
        } else {
          NextFailed(m, tasks, g, f, folds, exits);
          SkipRead(m, tasks, g, f, exits);
        }
      }
      r := Some(m);
    }

    lemma NothingRead(
      m: Matrix, tasks: seq<Task<C, P, D>>, k: nat, exits: (string, nat) -> RunResult)
      requires k < |tasks| && Sixteen(Hashes(tasks))
      ensures ColumnsRead(scoreFiles, m, tasks, k, 0, exits)
    {
    }

    lemma {:induction false} SkipRead(
      m: Matrix, tasks: seq<Task<C, P, D>>, k: nat, f: nat, exits: (string, nat) -> RunResult)
      requires k < |tasks| && Sixteen(Hashes(tasks)) && !Succeeds(tasks[k], f, exits)
      requires ColumnsRead(scoreFiles, m, tasks, k, f, exits)
      ensures ColumnsRead(scoreFiles, m, tasks, k, f + 1, exits)
    {
      hide ColumnRead;
    }

    lemma {:induction false} NextRead(
      m: Matrix, tasks: seq<Task<C, P, D>>, k: nat, f: nat, folds: nat, scores: seq<Score>,
      exits: (string, nat) -> RunResult)
      requires k < |tasks| && f < folds && Sixteen(Hashes(tasks)) && HeldBySome(scoreFiles, tasks, k, f)
      requires |tasks[k].group.hash| == 16 && Shaped(m, |tasks[k].group.rows|, folds)
      requires ColumnsRead(scoreFiles, m, tasks, k, f, exits)
      requires scores == ReadFoldScores(Directory(tasks[k]), f, |tasks[k].group.rows|)
      requires Fits(scores, |tasks[k].group.rows|)
      ensures ColumnsRead(scoreFiles, SetColumn(m, f, Broadcast(scores, |tasks[k].group.rows|)), tasks, k, f + 1, exits)
    {
      hide HasColumn, Broadcast;
      var n := |tasks[k].group.rows|;
      var r := SetColumn(m, f, Broadcast(scores, n));
      SetOneColumn(m, f, Broadcast(scores, n), n, folds);
      forall e: nat | e <= f && Succeeds(tasks[k], e, exits)
        ensures ColumnRead(scoreFiles, r, tasks, k, e)
      {
        if e < f {
          assert ColumnRead(scoreFiles, m, tasks, k, e);
        }
      }
    }

    lemma GroupStart(
      tasks: seq<Task<C, P, D>>, k: nat, folds: nat, exits: (string, nat) -> RunResult)
      requires k < |tasks| && Sixteen(Hashes(tasks))
      ensures GroupColumns(Filled(|tasks[k].group.rows|, folds), tasks, k, folds, 0, exits)
    {
    }

    lemma {:induction false} ReadsSharer(tasks: seq<Task<C, P, D>>, k: nat, f: nat, scores: seq<Score>) returns (j: nat)
      requires k < |tasks| && Sixteen(Hashes(tasks)) && |tasks[k].group.hash| == 16
      requires HeldBySome(scoreFiles, tasks, k, f)
      requires scores == ReadFoldScores(Directory(tasks[k]), f, |tasks[k].group.rows|)
      ensures j < |tasks| && Share(tasks, j, k) && tasks[j].specStem in specFiles && scores == ScoresOf(tasks[j], f)
    {
      hide ScoresOf;
      j :| j < |tasks| && HeldBy(scoreFiles, tasks, k, f, j);
    }

    lemma {:induction false} NextShared(
      m: Matrix, tasks: seq<Task<C, P, D>>, k: nat, f: nat, folds: nat, j: nat, scores: seq<Score>,
      exits: (string, nat) -> RunResult)
      requires k < |tasks| && j < |tasks| && f < folds && Sixteen(Hashes(tasks))
      requires Shaped(m, |tasks[k].group.rows|, folds)
      requires GroupColumns(m, tasks, k, folds, f, exits) && Succeeds(tasks[k], f, exits)
      requires Share(tasks, j, k) && tasks[j].specStem in specFiles && scores == ScoresOf(tasks[j], f)
      requires Fits(scores, |tasks[k].group.rows|) && |Broadcast(scores, |tasks[k].group.rows|)| == |m|
      ensures GroupColumns(SetColumn(m, f, Broadcast(scores, |tasks[k].group.rows|)), tasks, k, folds, f + 1, exits)
    {
      hide ScoresOf, HasColumn;
      var n, upto := |tasks[k].group.rows|, f + 1;
      var r := SetColumn(m, f, Broadcast(scores, n));
      SetOneColumn(m, f, Broadcast(scores, n), n, folds);
      forall e: nat | e < folds
        ensures GroupColumn(r, tasks, k, e, upto, exits)
      {
        assert GroupColumn(m, tasks, k, e, f, exits);
        if e == f {
          assert SharedColumn(r, tasks, k, f, j);
        } else if e < f && Succeeds(tasks[k], e, exits) {
          var i: nat :| i < |tasks| && SharedColumn(m, tasks, k, e, i);
          assert SharedColumn(r, tasks, k, e, i);
        }
      }
    }

    lemma {:induction false} NextFailed(
      m: Matrix, tasks: seq<Task<C, P, D>>, k: nat, f: nat, folds: nat, exits: (string, nat) -> RunResult)
      requires k < |tasks| && f < folds && Sixteen(Hashes(tasks))
      requires GroupColumns(m, tasks, k, folds, f, exits) && !Succeeds(tasks[k], f, exits)
      ensures GroupColumns(m, tasks, k, folds, f + 1, exits)
    {
      hide HasColumn, SharedColumn;
      var upto := f + 1;
      forall e: nat | e < folds
        ensures GroupColumn(m, tasks, k, e, upto, exits)
      {
        assert GroupColumn(m, tasks, k, e, f, exits);
      }
    }

    /** The per-group path: the runs of all groups interleave in any way, and a group is read at
        any time after its own runs. Whatever the schedule, a group gets its own scores or those
        of a group that shares its directory; and exactly, what the files hold for it after the
        runs before it was read. */
    method DispatchPerGroup(tasks: seq<Task<C, P, D>>, ghost candidates: seq<C>, folds: nat,
                            exits: (string, nat) -> RunResult)
      returns (results: Option<seq<Matrix>>, ghost order: seq<(nat, nat)>, ghost readAt: seq<nat>)
      requires Prepared(tasks, candidates)
      modifies this`scoreFiles
      ensures Runnable(tasks)
      ensures results.Some? ==> |results.value| == |tasks| == |readAt| && Schedule(tasks, folds, exits, order)
      ensures results.Some? ==> PerGroupOutcome(results.value, tasks, folds, exits, order, readAt, old(scoreFiles))
      ensures results.None? ==> AnyMisfit(tasks)
      ensures results.Some? ==>
        forall g | 0 <= g < |tasks| :: GroupColumns(results.value[g], tasks, g, folds, folds, exits)
    {
      hide Prepared, AllHeld, Sixteen, GroupColumns, AnyMisfit, Runnable, ReadAt, ColumnsRead, Listed, IsRun, FilesOf,
        RunOf, InRange, ReadsDone;
      PreparedIsRunnable(tasks, candidates);
      NothingListed(tasks, folds, exits);
      NoRuns(tasks, scoreFiles);
      order, readAt := [], seq(|tasks|, _ => 0);
      ghost var start := scoreFiles;
      NoneFinished(tasks, candidates, folds, exits);
      var pending: set<(nat, nat)> := AllRuns(|tasks|, folds);
      var unread: set<nat> := Below(|tasks|);
      var matrices: seq<Matrix> := seq(|tasks|, _ => []);
      NoReads(matrices, readAt, tasks, folds, exits, order, start, unread);
      while |pending| > 0 || |unread| > 0
        invariant forall g: nat, f: nat | (g, f) in pending :: g < |tasks| && f < folds
        invariant AllHeld(scoreFiles, tasks, folds, exits, pending)
        invariant forall g | g in unread :: g < |tasks|
        invariant Listed(tasks, folds, exits, order, pending) && InRange(tasks, order)
        invariant scoreFiles == FilesOf(tasks, order, start)
        invariant |matrices| == |readAt| == |tasks|
        invariant ReadsDone(matrices, readAt, tasks, folds, exits, order, start, unread)
        decreases |pending| + |unread|
      {
        var readNow: bool := *;
        var g: nat := *;
        if |pending| == 0 {
          g :| g in unread;
        }
        if |pending| == 0 || (readNow && g in unread && forall f: nat | f < folds :: (g, f) !in pending) {
          OwnRunsFinished(tasks, folds, exits, pending, g);
          var m := ReadTask(tasks, candidates, g, folds, exits);
          if m.None? {
            return None, order, readAt;
          }
          ReadLast(m.value, tasks, g, folds, exits, order, pending, start);
          OneReadMore(matrices, readAt, tasks, folds, exits, order, start, unread, g, m.value);
          readAt := readAt[g := |order|];
          matrices := matrices[g := m.value];
          unread := unread - {g};
        } else {
          var run :| run in pending;
          ListNext(tasks, folds, exits, order, pending, run);
          RunNext(tasks, candidates, folds, exits, run.0, run.1, pending);
          pending := pending - {run};
          if IsRun(tasks, folds, exits, run) {
            OneRunMore(tasks, order, run, start);
            ReadsStay(matrices, readAt, tasks, folds, exits, order, start, unread, run);
            order := order + [run];
          }
        }
      }
      assert pending == {};
      AllRead(matrices, readAt, tasks, folds, exits, order, start);
      results := Some(matrices);
    }

    /** The tasks read so far, each with its place in the order of the runs. */
    ghost predicate ReadsDone(
      matrices: seq<Matrix>, readAt: seq<nat>, tasks: seq<Task<C, P, D>>, folds: nat, exits: (string, nat) -> RunResult,
      order: seq<(nat, nat)>, files: map<(string, nat), seq<Score>>, unread: set<nat>)
      requires Runnable(tasks) && InRange(tasks, order) && |matrices| == |readAt| == |tasks|
      reads this`specFiles
    {
      forall g: nat | g < |tasks| && g !in unread ::
        && GroupColumns(matrices[g], tasks, g, folds, folds, exits)
        && ReadAt(matrices[g], tasks, g, folds, exits, order, readAt[g], files)
    }

    lemma NoReads(
      matrices: seq<Matrix>, readAt: seq<nat>, tasks: seq<Task<C, P, D>>, folds: nat, exits: (string, nat) -> RunResult,
      order: seq<(nat, nat)>, files: map<(string, nat), seq<Score>>, unread: set<nat>)
      requires Runnable(tasks) && InRange(tasks, order) && |matrices| == |readAt| == |tasks|
      requires forall g: nat | g < |tasks| :: g in unread
      ensures ReadsDone(matrices, readAt, tasks, folds, exits, order, files, unread)
    {
    }

    lemma {:induction false} OneReadMore(
      matrices: seq<Matrix>, readAt: seq<nat>, tasks: seq<Task<C, P, D>>, folds: nat, exits: (string, nat) -> RunResult,
      order: seq<(nat, nat)>, files: map<(string, nat), seq<Score>>, unread: set<nat>, g: nat, m: Matrix)
      requires Runnable(tasks) && InRange(tasks, order) && |matrices| == |readAt| == |tasks| && g < |tasks|
      requires ReadsDone(matrices, readAt, tasks, folds, exits, order, files, unread)
      requires GroupColumns(m, tasks, g, folds, folds, exits)
      requires ReadAt(m, tasks, g, folds, exits, order, |order|, files)
      ensures ReadsDone(
        matrices[g := m], readAt[g := |order|], tasks, folds, exits, order, files, unread - {g})
    {
      hide GroupColumns, ReadAt;
    }

    lemma {:induction false} ReadsStay(
      matrices: seq<Matrix>, readAt: seq<nat>, tasks: seq<Task<C, P, D>>, folds: nat, exits: (string, nat) -> RunResult,
      order: seq<(nat, nat)>, files: map<(string, nat), seq<Score>>, unread: set<nat>, run: (nat, nat))
      requires Runnable(tasks) && InRange(tasks, order) && |matrices| == |readAt| == |tasks|
      requires InRange(tasks, order + [run])
      requires ReadsDone(matrices, readAt, tasks, folds, exits, order, files, unread)
      ensures ReadsDone(matrices, readAt, tasks, folds, exits, order + [run], files, unread)
    {
      hide GroupColumns, ReadAt;
      forall g: nat | g < |tasks| && g !in unread
        ensures ReadAt(matrices[g], tasks, g, folds, exits, order + [run], readAt[g], files)
      {
        ReadEarlier(matrices[g], tasks, g, folds, exits, order, readAt[g], files, run);
      }
    }

    lemma {:induction false} AllRead(
      matrices: seq<Matrix>, readAt: seq<nat>, tasks: seq<Task<C, P, D>>, folds: nat, exits: (string, nat) -> RunResult,
      order: seq<(nat, nat)>, files: map<(string, nat), seq<Score>>)
      requires Runnable(tasks) && InRange(tasks, order) && |matrices| == |readAt| == |tasks|
      requires ReadsDone(matrices, readAt, tasks, folds, exits, order, files, {})
      ensures forall g | 0 <= g < |tasks| ::
        && GroupColumns(matrices[g], tasks, g, folds, folds, exits)
        && ReadAt(matrices[g], tasks, g, folds, exits, order, readAt[g], files)
    {
      hide GroupColumns, ReadAt;
    }

    lemma NoRuns(tasks: seq<Task<C, P, D>>, files: map<(string, nat), seq<Score>>)
      requires Runnable(tasks)
      ensures InRange(tasks, []) && FilesOf(tasks, [], files) == files
    {
    }

    lemma {:induction false} NoneFinished(
      tasks: seq<Task<C, P, D>>, candidates: seq<C>, folds: nat, exits: (string, nat) -> RunResult)
      requires Prepared(tasks, candidates)
      ensures Sixteen(Hashes(tasks))
      ensures AllHeld(scoreFiles, tasks, folds, exits, AllRuns(|tasks|, folds))
    {
      hide Ready, AllSpecsOnDisk, HeldBySome;
    }

    lemma {:induction false} OwnRunsFinished(
      tasks: seq<Task<C, P, D>>, folds: nat, exits: (string, nat) -> RunResult, pending: set<(nat, nat)>, g: nat)
      requires g < |tasks| && Sixteen(Hashes(tasks)) && AllHeld(scoreFiles, tasks, folds, exits, pending)
      requires forall f: nat | f < folds :: (g, f) !in pending
      ensures forall f: nat | f < folds && Succeeds(tasks[g], f, exits) :: HeldBySome(scoreFiles, tasks, g, f)
    {
      hide HeldBySome;
    }

    // ----- when every schedule gives every group its own scores -----

    /** What task j writes on this fold is right for task k. */
    ghost predicate RightFor(tasks: seq<Task<C, P, D>>, j: nat, k: nat, f: nat)
      requires Runnable(tasks) && j < |tasks| && k < |tasks|
      reads this`specFiles
    {
      RightScores(ScoresOf(tasks[j], f), tasks[k], f)
    }

    ghost predicate RightScores(scores: seq<Score>, t: Task<C, P, D>, f: nat) {
      Fits(scores, |t.group.rows|) && Broadcast(scores, |t.group.rows|) == Own(t, f)
    }

    /** Groups that share a directory score alike, on every fold on which both runs succeed; each
        of them, in particular, ran under its own spec. */
    ghost predicate SharersAgree(tasks: seq<Task<C, P, D>>, folds: nat, exits: (string, nat) -> RunResult)
      requires Runnable(tasks)
      reads this`specFiles
    {
      forall j: nat, k: nat, f: nat |
        IsRun(tasks, folds, exits, (j, f)) && IsRun(tasks, folds, exits, (k, f)) && Share(tasks, j, k) ::
        RightFor(tasks, j, k, f)
    }

    /** What task k finds after the first n runs of a schedule, its own on fold f among them, is
        right. */
    ghost predicate ReadIsRight(
      tasks: seq<Task<C, P, D>>, order: seq<(nat, nat)>, n: nat, files: map<(string, nat), seq<Score>>, run: (nat, nat))
      requires Runnable(tasks)
      reads this`specFiles
    {
      && InRange(tasks, order) && n <= |order| && run.0 < |tasks|
      && var file, now := FileOf(RunOf(tasks, run)), FilesOf(tasks, order[..n], files);
        file in now && RightScores(now[file], tasks[run.0], run.1)
    }

    /** On the per-group path every schedule, wherever the groups are read, gives every group its
        own scores if and only if groups that share a directory score alike. */
    lemma {:induction false} PerGroupRightIff(
      tasks: seq<Task<C, P, D>>, folds: nat, exits: (string, nat) -> RunResult, files: map<(string, nat), seq<Score>>)
      requires Runnable(tasks)
      ensures SharersAgree(tasks, folds, exits) <==>
        forall order, n, run | Schedule(tasks, folds, exits, order) && 0 <= n <= |order| && run in order[..n] ::
          ReadIsRight(tasks, order, n, files, run)
    {
      hide Schedule, ReadIsRight, RightFor, InRange;
      if SharersAgree(tasks, folds, exits) {
        forall order, n, run | Schedule(tasks, folds, exits, order) && 0 <= n <= |order| && run in order[..n]
          ensures ReadIsRight(tasks, order, n, files, run)
        {
          AgreeingRead(tasks, folds, exits, order, n, files, run);
        }
      }
      if forall order, n, run | Schedule(tasks, folds, exits, order) && 0 <= n <= |order| && run in order[..n] ::
        ReadIsRight(tasks, order, n, files, run) {
        forall j: nat, k: nat, f: nat |
          IsRun(tasks, folds, exits, (j, f)) && IsRun(tasks, folds, exits, (k, f)) && Share(tasks, j, k)
          ensures RightFor(tasks, j, k, f)
        {
          var order := EndingWith(tasks, folds, exits, j, k, f);
          assert order[..|order|] == order;
          assert ReadIsRight(tasks, order, |order|, files, (k, f));
          LastRunRead(tasks, order, files, j, k, f);
        }
      }
    }

    lemma {:induction false} AgreeingRead(
      tasks: seq<Task<C, P, D>>, folds: nat, exits: (string, nat) -> RunResult, order: seq<(nat, nat)>, n: nat,
      files: map<(string, nat), seq<Score>>, run: (nat, nat))
      requires Runnable(tasks) && SharersAgree(tasks, folds, exits) && Schedule(tasks, folds, exits, order)
      requires n <= |order| && run in order[..n]
      ensures InRange(tasks, order) && ReadIsRight(tasks, order, n, files, run)
    {
      hide RightFor, RightScores, ScoresOf, Own;
      var i :| 0 <= i < n && order[..n][i] == run;
      var runs := RunsOfOrder(tasks, order[..n]);
      var j := FileFrom(runs, files, i);
      var writer := order[..n][j];
      assert writer in order && run in order;
      assert runs[j] == RunOf(tasks, writer) && runs[i] == RunOf(tasks, run);
      SharedFile(tasks, writer, run);
      assert RightFor(tasks, writer.0, run.0, run.1);
      RightMeans(tasks, writer.0, run.0, run.1);
    }

    lemma RightMeans(tasks: seq<Task<C, P, D>>, j: nat, k: nat, f: nat)
      requires Runnable(tasks) && j < |tasks| && k < |tasks|
      ensures RightFor(tasks, j, k, f) <==> RightScores(RunOf(tasks, (j, f)).scores, tasks[k], f)
    {
    }

    /** Runs of one file are on one fold, of groups that share a directory. */
    lemma SharedFile(tasks: seq<Task<C, P, D>>, a: (nat, nat), b: (nat, nat))
      requires Runnable(tasks) && a.0 < |tasks| && b.0 < |tasks|
      ensures FileOf(RunOf(tasks, a)) == FileOf(RunOf(tasks, b)) <==> a.1 == b.1 && Share(tasks, a.0, b.0)
    {
    }

    /** A schedule whose last run is that of group j. */
    lemma {:induction false} EndingWith(
      tasks: seq<Task<C, P, D>>, folds: nat, exits: (string, nat) -> RunResult, j: nat, k: nat, f: nat)
      returns (order: seq<(nat, nat)>)
      requires IsRun(tasks, folds, exits, (j, f)) && IsRun(tasks, folds, exits, (k, f))
      ensures Schedule(tasks, folds, exits, order) && |order| > 0 && order[|order| - 1] == (j, f)
      ensures (j, f) in order && (k, f) in order
      ensures InRange(tasks, order)
    {
      order := ListAll(tasks, folds, exits, {(j, f)});
      hide IsRun;
      ListNext(tasks, folds, exits, order, {(j, f)}, (j, f));
      order := order + [(j, f)];
      assert {(j, f)} - {(j, f)} == {};
    }

    /** All successful runs but those pending, in some order. */
    lemma {:induction false} ListAll(
      tasks: seq<Task<C, P, D>>, folds: nat, exits: (string, nat) -> RunResult, pending: set<(nat, nat)>)
      returns (order: seq<(nat, nat)>)
      ensures Listed(tasks, folds, exits, order, pending)
    {
      hide IsRun, Listed;
      order := [];
      var rest := AllRuns(|tasks|, folds);
      NothingListed(tasks, folds, exits);
      StillPending(tasks, folds, exits, [], rest, rest + pending);
      while |rest - pending| > 0
        invariant Listed(tasks, folds, exits, order, rest + pending)
        decreases |rest - pending|
      {
        var run :| run in rest - pending;
        ListNext(tasks, folds, exits, order, rest + pending, run);
        if IsRun(tasks, folds, exits, run) {
          order := order + [run];
        }
        assert (rest + pending) - {run} == (rest - {run}) + pending;
        assert (rest - {run}) - pending == (rest - pending) - {run};
        rest := rest - {run};
      }
      assert rest - pending == {};
      assert forall run | run in rest :: run in pending || run in rest - pending;
      assert rest + pending == pending;
    }

    lemma StillPending(
      tasks: seq<Task<C, P, D>>, folds: nat, exits: (string, nat) -> RunResult, order: seq<(nat, nat)>,
      few: set<(nat, nat)>, many: set<(nat, nat)>)
      requires Listed(tasks, folds, exits, order, few) && order == [] && few <= many
      ensures Listed(tasks, folds, exits, order, many)
    {
    }

    /** The file of group j's directory holds group j's scores if its run was the last one. */
    lemma {:induction false} LastRunRead(
      tasks: seq<Task<C, P, D>>, order: seq<(nat, nat)>, files: map<(string, nat), seq<Score>>, j: nat, k: nat, f: nat)
      requires Runnable(tasks) && InRange(tasks, order) && j < |tasks| && k < |tasks| && Share(tasks, j, k)
      requires |order| > 0 && order[|order| - 1] == (j, f)
      requires ReadIsRight(tasks, order, |order|, files, (k, f))
      ensures RightFor(tasks, j, k, f)
    {
      hide RightFor, RightScores, RunOf;
      assert order[..|order|] == order == order[..|order| - 1] + [(j, f)];
      OneRunMore(tasks, order[..|order| - 1], (j, f), files);
      SharedFile(tasks, (j, f), (k, f));
      RightMeans(tasks, j, k, f);
    }

    /** So where groups that share a directory score alike, the per-group path is right. */
    lemma {:induction false} AgreementIsRight(
      m: Matrix, tasks: seq<Task<C, P, D>>, k: nat, folds: nat, exits: (string, nat) -> RunResult,
      order: seq<(nat, nat)>, n: nat, files: map<(string, nat), seq<Score>>)
      requires Runnable(tasks) && k < |tasks| && SharersAgree(tasks, folds, exits)
      requires Schedule(tasks, folds, exits, order) && InRange(tasks, order)
      requires GroupColumns(m, tasks, k, folds, folds, exits) && ReadAt(m, tasks, k, folds, exits, order, n, files)
      ensures TaskScores(m, tasks[k], folds, exits)
    {
      hide HasColumn, Own, SharedColumn, Broadcast, SharersAgree, Schedule;
      forall f: nat | f < folds
        ensures TaskColumn(m, tasks[k], f, exits)
      {
        assert GroupColumn(m, tasks, k, f, folds, exits);
        if Succeeds(tasks[k], f, exits) {
          AgreeingRead(tasks, folds, exits, order, n, files, (k, f));
          assert ColumnRead(FilesOf(tasks, order[..n], files), m, tasks, k, f);
        }
      }
    }

    // ----- when every group gets its own scores -----

    /** A task's matrix holds its candidates, each scored by itself, where the fold succeeded. */
    ghost predicate TaskScores(m: Matrix, t: Task<C, P, D>, folds: nat, exits: (string, nat) -> RunResult) {
      && Shaped(m, |t.group.rows|, folds)
      && (forall f: nat | f < folds :: TaskColumn(m, t, f, exits))
    }

    ghost predicate TaskColumn(m: Matrix, t: Task<C, P, D>, f: nat, exits: (string, nat) -> RunResult) {
      HasColumn(m, f, if Succeeds(t, f, exits) then Own(t, f) else Failed(|t.group.rows|))
    }

    /** On the manifest path a group's matrix is right if and only if, on every successful fold,
        the last group of its directory has the same scores. */
    lemma {:induction false} ManifestRightIff(
      m: Matrix, tasks: seq<Task<C, P, D>>, candidates: seq<C>, k: nat, folds: nat, exits: (string, nat) -> RunResult)
      requires Prepared(tasks, candidates) && k < |tasks|
      requires ManifestColumns(m, tasks, candidates, k, folds, folds, exits)
      ensures TaskScores(m, tasks[k], folds, exits) <==>
        forall f: nat | f < folds && Succeeds(tasks[k], f, exits) :: LastScoresTheSame(tasks, candidates, k, f)
    {
      hide Prepared, LastScoresTheSame, HasColumn, Own, ManifestColumn;
      forall f: nat | f < folds
        ensures TaskColumn(m, tasks[k], f, exits) <==>
          (Succeeds(tasks[k], f, exits) ==> LastScoresTheSame(tasks, candidates, k, f))
      {
        ColumnRightIff(m, tasks, candidates, k, f, folds, exits);
      }
    }

    /** What task k reads on this fold is what its own candidates score. */
    ghost predicate LastScoresTheSame(tasks: seq<Task<C, P, D>>, candidates: seq<C>, k: nat, f: nat)
      requires Prepared(tasks, candidates) && k < |tasks|
      reads this`specFiles
    {
      TakesLast(tasks, k) && ReadByManifest(tasks, candidates, k, f) == Own(tasks[k], f)
    }

    lemma {:induction false} ColumnRightIff(
      m: Matrix, tasks: seq<Task<C, P, D>>, candidates: seq<C>, k: nat, f: nat, folds: nat,
      exits: (string, nat) -> RunResult)
      requires Prepared(tasks, candidates) && k < |tasks| && f < folds
      requires ManifestColumn(m, tasks, candidates, k, f, folds, exits)
      ensures TaskColumn(m, tasks[k], f, exits) <==>
        (Succeeds(tasks[k], f, exits) ==> LastScoresTheSame(tasks, candidates, k, f))
    {
      hide Prepared, ReadByManifest, Own, TakesLast, HasColumn;
      if Succeeds(tasks[k], f, exits) {
        OneColumn(m, f, ReadByManifest(tasks, candidates, k, f), Own(tasks[k], f));
      }
    }

    lemma OneColumn(m: Matrix, f: nat, a: seq<Score>, b: seq<Score>)
      requires HasColumn(m, f, a)
      ensures HasColumn(m, f, b) <==> a == b
    {
    }

    /** A group alone in its directory reads its own scores. */
    lemma {:induction false} ManifestOwn(
      m: Matrix, tasks: seq<Task<C, P, D>>, candidates: seq<C>, k: nat, folds: nat, exits: (string, nat) -> RunResult)
      requires Prepared(tasks, candidates) && k < |tasks| && PrefixesDiffer(Hashes(tasks))
      ensures TakesLast(tasks, k)
      ensures ManifestColumns(m, tasks, candidates, k, folds, folds, exits) ==> TaskScores(m, tasks[k], folds, exits)
    {
      hide Ready, AllSpecsOnDisk, Own, ManifestColumns, TaskScores;
      AloneInDirectory(tasks, k, LastSharing(Hashes(tasks), k, DIRECTORY_CHARS));
      if ManifestColumns(m, tasks, candidates, k, folds, folds, exits) {
        ManifestRightIff(m, tasks, candidates, k, folds, exits);
      }
    }

    lemma {:induction false} GroupOwn(
      m: Matrix, tasks: seq<Task<C, P, D>>, candidates: seq<C>, k: nat, folds: nat, exits: (string, nat) -> RunResult)
      requires Prepared(tasks, candidates) && k < |tasks| && PrefixesDiffer(Hashes(tasks))
      requires GroupColumns(m, tasks, k, folds, folds, exits)
      ensures TaskScores(m, tasks[k], folds, exits)
    {
      hide Ready, AllSpecsOnDisk, Own, ScoresOf, HasColumn;
      forall f: nat | f < folds
        ensures TaskColumn(m, tasks[k], f, exits)
      {
        assert GroupColumn(m, tasks, k, f, folds, exits);
        if Succeeds(tasks[k], f, exits) {
          var j: nat :| j < |tasks| && SharedColumn(m, tasks, k, f, j);
          AloneInDirectory(tasks, k, j);
          AloneInDirectory(tasks, k, LastSharing(Hashes(tasks), k, DIRECTORY_CHARS));
          LastIsOwn(tasks, candidates, k, f);
        }
      }
    }

    lemma {:induction false} NoMisfit(tasks: seq<Task<C, P, D>>)
      requires Sixteen(Hashes(tasks)) && PrefixesDiffer(Hashes(tasks))
      ensures !AnyMisfit(tasks)
    {
      forall k: nat, j: nat | k < |tasks| && j < |tasks|
        ensures !Misfit(tasks, k, j)
      {
        AloneInDirectory(tasks, k, j);
      }
    }

    // ----- scattering -----

    /** `fold_score_matrix[global_i] = group_scores[local_i]` for one group. */
    method ScatterGroup(m: array2<Score>, t: Task<C, P, D>, scores: Matrix, ghost candidates: seq<C>)
      requires GroupOf(t.group, t.group.hash, candidates) && m.Length0 == |candidates|
      requires Shaped(scores, |t.group.rows|, m.Length1)
      modifies m
      ensures forall k, f | 0 <= k < |t.group.indices| && 0 <= f < m.Length1 :: m[t.group.indices[k], f] == scores[k][f]
      ensures forall i, f | 0 <= i < m.Length0 && 0 <= f < m.Length1 && i !in t.group.indices :: m[i, f] == old(m[i, f])
    {
      var indices := t.group.indices;
      for k := 0 to |indices|
        invariant forall j, f | 0 <= j < k && 0 <= f < m.Length1 :: m[indices[j], f] == scores[j][f]
        invariant forall i, f | 0 <= i < m.Length0 && 0 <= f < m.Length1 && i !in indices[..k] ::
          m[i, f] == old(m[i, f])
      {
        var row := indices[k];
        forall f | 0 <= f < m.Length1 {
          m[row, f] := scores[k][f];
        }
        assert indices[..k + 1] == indices[..k] + [row];
      }
      assert indices[..|indices|] == indices;
    }

    /** What `_dispatch_grouped` promises of one entry. */
    function Expected(c: C, f: nat, exits: (string, nat) -> RunResult): Score {
      if Survives(c) && exits(HashOf(c), f) == Exit(0) then Alone(c, f) else NegInf
    }

    ghost predicate Scattered(tasks: seq<Task<C, P, D>>, upto: nat, i: nat)
      requires upto <= |tasks|
    {
      exists g :: 0 <= g < upto && i in tasks[g].group.indices
    }

    /** The rows of an array. */
    ghost function Rows(m: array2<Score>): (r: Matrix)
      reads m
      ensures |r| == m.Length0 && forall i | 0 <= i < |r| :: |r[i]| == m.Length1
      ensures forall i, f | 0 <= i < m.Length0 && 0 <= f < m.Length1 :: r[i][f] == m[i, f]
    {
      seq(m.Length0, i requires 0 <= i < m.Length0 reads m =>
        seq(m.Length1, f requires 0 <= f < m.Length1 reads m => m[i, f]))
    }

    /** The rows of a task's matrix are where its candidates are. */
    ghost predicate RowsPlaced(all: Matrix, t: Task<C, P, D>, scores: Matrix) {
      && |scores| == |t.group.indices|
      && forall k | 0 <= k < |scores| :: t.group.indices[k] < |all| && all[t.group.indices[k]] == scores[k]
    }

    /** Every task's rows are where its candidates are. */
    ghost predicate AllPlaced(all: Matrix, tasks: seq<Task<C, P, D>>, matrices: seq<Matrix>, upto: nat)
      requires upto <= |tasks| == |matrices|
    {
      forall g | 0 <= g < upto :: RowsPlaced(all, tasks[g], matrices[g])
    }

    /** Tasks have no candidate in common. */
    lemma {:induction false} IndicesApart(tasks: seq<Task<C, P, D>>, candidates: seq<C>, j: nat, k: nat)
      requires Prepared(tasks, candidates) && j < k < |tasks|
      ensures forall i | i in tasks[j].group.indices :: i !in tasks[k].group.indices
    {
      hide GroupOf, AllSpecsOnDisk;
      assert Ready(tasks[j], candidates) && Ready(tasks[k], candidates);
      MembersHash(tasks[j].group, candidates);
      MembersHash(tasks[k].group, candidates);
    }

    lemma {:induction false} MembersHash(g: Group<C, P>, candidates: seq<C>)
      requires GroupOf(g, g.hash, candidates)
      ensures forall i | i in g.indices :: i < |candidates| && HashOf(candidates[i]) == g.hash
    {
      forall i | i in g.indices
        ensures i < |candidates| && HashOf(candidates[i]) == g.hash
      {
        var k :| 0 <= k < |g.indices| && g.indices[k] == i;
        assert KeyOf(g.rows[k]) == g.key;
      }
    }

    /** The final loop over the groups; untouched rows stay minus infinity, and the rows of
        correctly scored groups are as expected. */
    method Scatter(tasks: seq<Task<C, P, D>>, results: seq<Matrix>, ghost candidates: seq<C>, n: nat, folds: nat,
                   ghost exits: (string, nat) -> RunResult)
      returns (m: array2<Score>)
      requires Prepared(tasks, candidates) && n == |candidates| && |results| == |tasks|
      requires forall g | 0 <= g < |tasks| :: Shaped(results[g], |tasks[g].group.rows|, folds)
      ensures fresh(m) && m.Length0 == n && m.Length1 == folds
      ensures forall i, f | 0 <= i < n && 0 <= f < folds && !Scattered(tasks, |tasks|, i) :: m[i, f] == NegInf
      ensures (forall g | 0 <= g < |tasks| :: TaskScores(results[g], tasks[g], folds, exits)) ==>
        forall i, f | 0 <= i < n && 0 <= f < folds && Scattered(tasks, |tasks|, i) ::
          m[i, f] == Expected(candidates[i], f, exits)
      ensures AllPlaced(Rows(m), tasks, results, |tasks|)
    {
      hide TaskScores, AllSpecsOnDisk, Ready, GroupOf, Expected, Scattered, RowsPlaced, Rows;
      NoneScattered(tasks);
      m := new Score[n, folds]((_, _) => NegInf);
      ghost var right := forall g | 0 <= g < |tasks| :: TaskScores(results[g], tasks[g], folds, exits);
      for g := 0 to |tasks|
        invariant forall i, f | 0 <= i < n && 0 <= f < folds && !Scattered(tasks, g, i) :: m[i, f] == NegInf
        invariant right ==> forall i, f | 0 <= i < n && 0 <= f < folds && Scattered(tasks, g, i) ::
          m[i, f] == Expected(candidates[i], f, exits)
        invariant AllPlaced(Rows(m), tasks, results, g)
      {
        ghost var t := tasks[g];
        ReadyGroup(t, candidates);
        ghost var was := Rows(m);
        label before:
        ScatterGroup(m, tasks[g], results[g], candidates);
        ghost var next := g + 1;
        forall i, f | 0 <= i < n && 0 <= f < folds
          ensures !Scattered(tasks, next, i) ==> m[i, f] == NegInf
          ensures right && Scattered(tasks, next, i) ==> m[i, f] == Expected(candidates[i], f, exits)
        {
          ScatteredNext(tasks, g, i);
          if i !in t.group.indices {
            assert m[i, f] == old@before(m[i, f]);
          } else if right {
            RowIsExpected(t, candidates, results[g], folds, exits, i, f);
          }
        }
        OthersPlaced(was, Rows(m), tasks, candidates, results, g);
        JustPlaced(m, t, candidates, results[g]);
      }
    }

    lemma {:induction false} OthersPlaced(
      was: Matrix, now: Matrix, tasks: seq<Task<C, P, D>>, candidates: seq<C>, matrices: seq<Matrix>, g: nat)
      requires Prepared(tasks, candidates) && g < |tasks| == |matrices| && AllPlaced(was, tasks, matrices, g)
      requires |now| == |was| && forall i | 0 <= i < |was| && i !in tasks[g].group.indices :: now[i] == was[i]
      ensures AllPlaced(now, tasks, matrices, g)
    {
      hide Prepared;
      forall k | 0 <= k < g
        ensures RowsPlaced(now, tasks[k], matrices[k])
      {
        IndicesApart(tasks, candidates, k, g);
        assert RowsPlaced(was, tasks[k], matrices[k]);
        assert forall r | 0 <= r < |matrices[k]| :: tasks[k].group.indices[r] in tasks[k].group.indices;
      }
    }

    lemma {:induction false} JustPlaced(m: array2<Score>, t: Task<C, P, D>, candidates: seq<C>, scores: Matrix)
      requires GroupOf(t.group, t.group.hash, candidates) && m.Length0 == |candidates|
      requires Shaped(scores, |t.group.rows|, m.Length1)
      requires forall k, f | 0 <= k < |t.group.indices| && 0 <= f < m.Length1 ::
        m[t.group.indices[k], f] == scores[k][f]
      ensures RowsPlaced(Rows(m), t, scores)
    {
      forall k | 0 <= k < |scores|
        ensures Rows(m)[t.group.indices[k]] == scores[k]
      {
      }
    }

    lemma ReadyGroup(t: Task<C, P, D>, candidates: seq<C>)
      requires Ready(t, candidates)
      ensures GroupOf(t.group, t.group.hash, candidates) && Kept(t.group.hash)
      ensures |t.group.rows| == |t.group.indices|
    {
    }

    lemma NoneScattered(tasks: seq<Task<C, P, D>>)
      ensures forall i: nat :: !Scattered(tasks, 0, i)
    {
    }

    lemma {:induction false} ScatteredNext(tasks: seq<Task<C, P, D>>, g: nat, i: nat)
      requires g < |tasks|
      ensures Scattered(tasks, g + 1, i) <==> Scattered(tasks, g, i) || i in tasks[g].group.indices
    {
      if i in tasks[g].group.indices {
        assert Scattered(tasks, g + 1, i);
      }
      if Scattered(tasks, g, i) {
        var j :| 0 <= j < g && i in tasks[j].group.indices;
        assert Scattered(tasks, g + 1, i);
      }
    }

    lemma {:induction false} RowIsExpected(
      t: Task<C, P, D>, candidates: seq<C>, scores: Matrix, folds: nat, exits: (string, nat) -> RunResult,
      i: nat, f: nat)
      requires GroupOf(t.group, t.group.hash, candidates) && Kept(t.group.hash)
      requires TaskScores(scores, t, folds, exits) && i in t.group.indices && f < folds
      ensures i < |candidates|
      ensures exists k ::
        0 <= k < |t.group.indices| && t.group.indices[k] == i && scores[k][f] == Expected(candidates[i], f, exits)
    {
      var k :| 0 <= k < |t.group.indices| && t.group.indices[k] == i;
      assert KeyOf(t.group.rows[k]) == t.group.key;
      assert TaskColumn(scores, t, f, exits);
      assert scores[k][f] == Expected(candidates[i], f, exits);
    }

    /** Exactly the surviving candidates are scattered. */
    lemma {:induction false} SurvivorsScattered(
      order: seq<string>, groups: map<string, Group<C, P>>, tasks: seq<Task<C, P, D>>, candidates: seq<C>, i: nat)
      requires Gathered(order, groups, candidates) && i < |candidates|
      requires |tasks| == |order| && forall k | 0 <= k < |order| :: tasks[k].group == groups[order[k]]
      ensures Survives(candidates[i]) <==> Scattered(tasks, |tasks|, i)
    {
      if Survives(candidates[i]) {
        var h := HashOf(candidates[i]);
        assert h in groups;
        var k :| 0 <= k < |order| && order[k] == h;
        assert i in tasks[k].group.indices;
      }
      if Scattered(tasks, |tasks|, i) {
        var g :| 0 <= g < |tasks| && i in tasks[g].group.indices;
        assert order[g] in groups;
        MemberSurvives(groups[order[g]], order[g], candidates, i);
      }
    }

    lemma {:induction false} MemberSurvives(g: Group<C, P>, h: string, candidates: seq<C>, i: nat)
      requires GroupOf(g, h, candidates) && Kept(h) && i in g.indices
      ensures i < |candidates| && Survives(candidates[i])
    {
      var k :| 0 <= k < |g.indices| && g.indices[k] == i;
      assert KeyOf(g.rows[k]) == g.key;
    }

    // ----- the whole dispatch -----

    /** The surviving groups have directories of their own. */
    ghost predicate OwnDirectories(candidates: seq<C>) {
      forall c, d | c in candidates && d in candidates && Survives(c) && Survives(d) && HashOf(c) != HashOf(d)
        && |HashOf(c)| >= DIRECTORY_CHARS && |HashOf(d)| >= DIRECTORY_CHARS ::
        HashOf(c)[..DIRECTORY_CHARS] != HashOf(d)[..DIRECTORY_CHARS]
    }

    /** The cache has room for all signal settings. */
    ghost predicate RoomFor(candidates: seq<C>) {
      |SignalKeys(candidates)| <= cache.maxEntries
    }

    /** `_dispatch_grouped`. The rows are those of the groups' matrices, in the candidates' places,
        and the matrices are what one of the two paths leaves; if the manifest dispatch raises,
        the per-group path starts over. So if the surviving groups have directories of their own
        and the cache keeps their data, row i holds candidate i scored by itself, under its own
        group's spec and data, on every fold whose run succeeded, and everything else is minus
        infinity. The cache keeps the data if it found all of it, or has room for all the signal
        settings; with more settings than room, some group's file is gone after a miss. The call
        raises if a signal setting cannot be computed. */
    method DispatchGrouped(candidates: seq<C>, folds: nat, useManifest: bool, manifestRaises: bool,
                           foldExits: nat -> RunResult, groupExits: (string, nat) -> RunResult)
      returns (m: Option<array2<Score>>, ghost tasks: seq<Task<C, P, D>>, ghost matrices: seq<Matrix>)
      requires Hashing(candidates) && cache.Valid() && cache.Honest()
      modifies this`specFiles, this`scoreFiles, cache
      ensures m.Some? ==>
        && Prepared(tasks, candidates) && |matrices| == |tasks|
        && (forall i | 0 <= i < |candidates| :: Survives(candidates[i]) <==> Scattered(tasks, |tasks|, i))
        && AllPlaced(Rows(m.value), tasks, matrices, |tasks|)
        && Dispatched(matrices, tasks, candidates, folds, useManifest && !manifestRaises, foldExits, groupExits)
      ensures cache.Valid() && cache.Honest()
      ensures m.Some? ==> fresh(m.value) && m.value.Length0 == |candidates| && m.value.Length1 == folds
      ensures (exists c :: c in candidates && Survives(c) && cache.precompute(signalOf(c)).None?) ==> m.None?
      ensures m.Some? ==>
        forall i, f | 0 <= i < |candidates| && 0 <= f < folds && !Survives(candidates[i]) :: m.value[i, f] == NegInf
      ensures (|SignalKeys(candidates)| > cache.maxEntries && cache.misses > old(cache.misses) && cache.stuck == {})
        ==> m.None?
      ensures (OwnDirectories(candidates)
        && (cache.misses == old(cache.misses)
            || (RoomFor(candidates) && cache.capHits == old(cache.capHits)
                && (cache.strictClock || cache.hits == old(cache.hits))))
        && forall c | c in candidates && Survives(c) :: cache.precompute(signalOf(c)).Some?) ==>
        && m.Some?
        && (forall i, f | 0 <= i < |candidates| && 0 <= f < folds :: m.value[i, f] ==
              Expected(candidates[i], f, Exits(useManifest && !manifestRaises, foldExits, groupExits)))
    {
      hide Gathered, Hashing, GroupOf, Scattered, Prepared, DataFor, Survives;
      var order, groups := Gather(candidates);
      var enriched := Enrich(order, groups, candidates);
      SurvivorsInGroups(order, groups, candidates);
      tasks, matrices := [], [];
      if enriched.None? {
        return None, tasks, matrices;
      }
      var prepared := Prepare(order, groups, enriched.value, candidates);
      if prepared.None? {
        // a group's enriched file was evicted: the evaluator would find no data
        return None, tasks, matrices;
      }
      tasks := prepared.value;
      forall i | 0 <= i < |candidates|
        ensures Survives(candidates[i]) <==> Scattered(tasks, |tasks|, i)
      {
        SurvivorsScattered(order, groups, tasks, candidates, i);
      }
      HashesOfTasks(order, groups, tasks, candidates);
      m, matrices :=
        Evaluate(prepared.value, candidates, |candidates|, folds, useManifest, manifestRaises, foldExits, groupExits);
    }

    /** The survivors' signal settings are those of the groups. */
    lemma {:induction false} SurvivorsInGroups(
      order: seq<string>, groups: map<string, Group<C, P>>, candidates: seq<C>)
      requires Gathered(order, groups, candidates) && Hashing(candidates)
      ensures (forall h | h in groups :: cache.precompute(groups[h].key.signal).Some?)
        <==> (forall c | c in candidates && Survives(c) :: cache.precompute(signalOf(c)).Some?)
    {
      hide GroupOf, Gathered, Hashing, Survives;
      forall c | c in candidates && Survives(c)
        ensures HashOf(c) in groups && groups[HashOf(c)].key.signal == signalOf(c)
      {
        SurvivorsGroup(order, groups, candidates, c);
      }
      forall h | h in groups
        ensures exists c :: c in candidates && Survives(c) && signalOf(c) == groups[h].key.signal
      {
        GroupsSurvivor(order, groups, candidates, h);
      }
    }

    lemma {:induction false} SurvivorsGroup(
      order: seq<string>, groups: map<string, Group<C, P>>, candidates: seq<C>, c: C)
      requires Gathered(order, groups, candidates) && Hashing(candidates) && c in candidates && Survives(c)
      ensures HashOf(c) in groups && groups[HashOf(c)].key.signal == signalOf(c)
    {
      hide Hashing, GroupOf;
      var i :| 0 <= i < |candidates| && candidates[i] == c;
      assert HashOf(candidates[i]) in groups;
      SignalOfHash(groups[HashOf(c)], candidates, c);
    }

    lemma {:induction false} GroupsSurvivor(
      order: seq<string>, groups: map<string, Group<C, P>>, candidates: seq<C>, h: string)
      requires Gathered(order, groups, candidates) && h in groups
      ensures exists c :: c in candidates && Survives(c) && signalOf(c) == groups[h].key.signal
    {
      hide GroupOf;
      SignalOfGroup(groups[h], h, candidates);
    }

    lemma {:induction false} SignalOfHash(g: Group<C, P>, candidates: seq<C>, c: C)
      requires GroupOf(g, HashOf(c), candidates) && Hashing(candidates) && c in candidates
      ensures g.key.signal == signalOf(c)
    {
      var d := g.rows[0];
      assert d == candidates[g.indices[0]] && KeyOf(d) == g.key && HashOf(d) == HashOf(c);
    }

    lemma {:induction false} HashesOfTasks(
      order: seq<string>, groups: map<string, Group<C, P>>, tasks: seq<Task<C, P, D>>, candidates: seq<C>)
      requires Hashing(candidates) && Gathered(order, groups, candidates)
      requires |tasks| == |order| && forall k | 0 <= k < |order| :: tasks[k].group == groups[order[k]]
      ensures OwnDirectories(candidates) ==> PrefixesDiffer(Hashes(tasks))
    {
      forall k | 0 <= k < |order|
        ensures Hashes(tasks)[k] == order[k] && |order[k]| == 16
        ensures exists c :: c in candidates && HashOf(c) == order[k] && Survives(c)
      {
        GroupHash(groups[order[k]], order[k], candidates);
        SignalOfGroup(groups[order[k]], order[k], candidates);
      }
      if OwnDirectories(candidates) {
        forall i, j | 0 <= i < j < |order|
          ensures Hashes(tasks)[i][..DIRECTORY_CHARS] != Hashes(tasks)[j][..DIRECTORY_CHARS]
        {
          var c :| c in candidates && HashOf(c) == order[i] && Survives(c);
          var d :| d in candidates && HashOf(d) == order[j] && Survives(d);
        }
      }
    }

    lemma {:induction false} MustFit(tasks: seq<Task<C, P, D>>, candidates: seq<C>)
      requires Prepared(tasks, candidates)
      ensures PrefixesDiffer(Hashes(tasks)) ==> forall k | 0 <= k < |tasks| :: TakesLast(tasks, k)
    {
      if PrefixesDiffer(Hashes(tasks)) {
        forall k | 0 <= k < |tasks|
          ensures TakesLast(tasks, k)
        {
          AloneInDirectory(tasks, k, LastSharing(Hashes(tasks), k, DIRECTORY_CHARS));
        }
      }
    }

    /** What the manifest path leaves: every group has the scores of the last of its directory. */
    ghost predicate ManifestOutcome(
      matrices: seq<Matrix>, tasks: seq<Task<C, P, D>>, candidates: seq<C>, folds: nat,
      exits: (string, nat) -> RunResult)
      requires Prepared(tasks, candidates)
      reads this`specFiles
    {
      && |matrices| == |tasks|
      && forall k | 0 <= k < |tasks| :: ManifestColumns(matrices[k], tasks, candidates, k, folds, folds, exits)
    }

    /** What the per-group path leaves: every group was read at some point of one schedule. */
    ghost predicate PerGroupOutcome(
      matrices: seq<Matrix>, tasks: seq<Task<C, P, D>>, folds: nat, exits: (string, nat) -> RunResult,
      order: seq<(nat, nat)>, readAt: seq<nat>, files: map<(string, nat), seq<Score>>)
      requires Runnable(tasks)
      reads this`specFiles
    {
      && Schedule(tasks, folds, exits, order) && |matrices| == |readAt| == |tasks|
      && ReadsDone(matrices, readAt, tasks, folds, exits, order, files, {})
    }

    /** `group_score_maps.get(group_hash)` for every task. */
    method InOrder(tasks: seq<Task<C, P, D>>, ghost candidates: seq<C>, folds: nat,
                   ghost exits: (string, nat) -> RunResult, byHash: map<string, Matrix>)
      returns (matrices: seq<Matrix>)
      requires Prepared(tasks, candidates)
      requires forall k | 0 <= k < |tasks| :: AtColumn(byHash, tasks, candidates, k, folds, folds, exits)
      ensures |matrices| == |tasks|
      ensures forall k | 0 <= k < |tasks| :: Shaped(matrices[k], |tasks[k].group.rows|, folds)
      ensures ManifestOutcome(matrices, tasks, candidates, folds, exits)
      ensures PrefixesDiffer(Hashes(tasks)) ==>
        forall k | 0 <= k < |tasks| :: TaskScores(matrices[k], tasks[k], folds, exits)
    {
      hide Ready, AllSpecsOnDisk, TaskScores, PrefixesDiffer, ManifestColumn;
      matrices := [];
      for k := 0 to |tasks|
        invariant |matrices| == k
        invariant forall j | 0 <= j < k :: Shaped(matrices[j], |tasks[j].group.rows|, folds)
        invariant forall j | 0 <= j < k :: ManifestColumns(matrices[j], tasks, candidates, j, folds, folds, exits)
        invariant PrefixesDiffer(Hashes(tasks)) ==>
          forall j | 0 <= j < k :: TaskScores(matrices[j], tasks[j], folds, exits)
      {
        assert AtColumn(byHash, tasks, candidates, k, folds, folds, exits);
        if PrefixesDiffer(Hashes(tasks)) {
          ManifestOwn(byHash[tasks[k].group.hash], tasks, candidates, k, folds, exits);
        }
        matrices := matrices + [byHash[tasks[k].group.hash]];
      }
    }

    lemma {:induction false} OwnMatrices(
      tasks: seq<Task<C, P, D>>, candidates: seq<C>, folds: nat, exits: (string, nat) -> RunResult,
      results: seq<Matrix>)
      requires Prepared(tasks, candidates) && |results| == |tasks|
      requires forall g | 0 <= g < |tasks| :: GroupColumns(results[g], tasks, g, folds, folds, exits)
      ensures forall g | 0 <= g < |tasks| :: Shaped(results[g], |tasks[g].group.rows|, folds)
      ensures PrefixesDiffer(Hashes(tasks)) ==>
        forall g | 0 <= g < |tasks| :: TaskScores(results[g], tasks[g], folds, exits)
    {
      hide Ready, AllSpecsOnDisk, TaskScores, PrefixesDiffer, GroupColumn;
      if PrefixesDiffer(Hashes(tasks)) {
        forall g | 0 <= g < |tasks|
          ensures TaskScores(results[g], tasks[g], folds, exits)
        {
          GroupOwn(results[g], tasks, candidates, g, folds, exits);
        }
      }
    }

    function Exits(manifest: bool, foldExits: nat -> RunResult, groupExits: (string, nat) -> RunResult):
      (string, nat) -> RunResult
    {
      if manifest then (_: string, f: nat) => foldExits(f) else groupExits
    }

    /** The outcome of one of the two paths; the per-group one if the manifest one is off or raised. */
    ghost predicate Dispatched(
      matrices: seq<Matrix>, tasks: seq<Task<C, P, D>>, candidates: seq<C>, folds: nat, manifest: bool,
      foldExits: nat -> RunResult, groupExits: (string, nat) -> RunResult)
      requires Prepared(tasks, candidates)
      reads this`specFiles
    {
      PreparedIsRunnable(tasks, candidates);
      || (manifest && ManifestOutcome(matrices, tasks, candidates, folds, Exits(true, foldExits, groupExits)))
      || ((manifest ==> exists k :: 0 <= k < |tasks| && !TakesLast(tasks, k))
          && exists order, readAt, files :: PerGroupOutcome(matrices, tasks, folds, groupExits, order, readAt, files))
    }

    /** The fourth part of `_dispatch_grouped`: manifest or per-group dispatch, then the scatter. */
    method Evaluate(tasks: seq<Task<C, P, D>>, ghost candidates: seq<C>, n: nat, folds: nat, useManifest: bool,
                    manifestRaises: bool, foldExits: nat -> RunResult, groupExits: (string, nat) -> RunResult)
      returns (m: Option<array2<Score>>, ghost matrices: seq<Matrix>)
      requires Prepared(tasks, candidates) && n == |candidates|
      modifies this`scoreFiles
      ensures m.Some? ==> |matrices| == |tasks| && AllPlaced(Rows(m.value), tasks, matrices, |tasks|)
      ensures m.Some? ==>
        Dispatched(matrices, tasks, candidates, folds, useManifest && !manifestRaises, foldExits, groupExits)
      ensures m.Some? ==> fresh(m.value) && m.value.Length0 == n && m.value.Length1 == folds
      ensures m.Some? ==>
        forall i, f | 0 <= i < n && 0 <= f < folds && !Scattered(tasks, |tasks|, i) :: m.value[i, f] == NegInf
      ensures PrefixesDiffer(Hashes(tasks)) ==>
        && m.Some?
        && (forall i, f | 0 <= i < n && 0 <= f < folds && Scattered(tasks, |tasks|, i) :: m.value[i, f] ==
              Expected(candidates[i], f, Exits(useManifest && !manifestRaises, foldExits, groupExits)))
    {
      hide Ready, AllSpecsOnDisk, TaskScores, AtColumn, GroupColumns, AnyMisfit, TakesLast, Expected, Scattered,
        ManifestOutcome, Rows, AllPlaced, ReadAt, Schedule, Runnable;
      matrices := [];
      if PrefixesDiffer(Hashes(tasks)) {
        NoMisfit(tasks);
      }
      if useManifest && !manifestRaises {
        var byHash := DispatchManifest(tasks, candidates, folds, Exits(true, foldExits, groupExits));
        if byHash.Some? {
          var inOrder := InOrder(tasks, candidates, folds, Exits(true, foldExits, groupExits), byHash.value);
          var scattered := Scatter(tasks, inOrder, candidates, n, folds, Exits(true, foldExits, groupExits));
          return Some(scattered), inOrder;
        }
        MustFit(tasks, candidates);
      } else if useManifest {
        // some of its runs may have happened
        var written: map<(string, nat), seq<Score>> := *;
        scoreFiles := written;
      }
      ghost var files := scoreFiles;
      var results, order, readAt := DispatchPerGroup(tasks, candidates, folds, groupExits);
      if results.None? {
        return None, [];
      }
      OwnMatrices(tasks, candidates, folds, groupExits, results.value);
      assert PerGroupOutcome(results.value, tasks, folds, groupExits, order, readAt, files);
      var scattered := Scatter(tasks, results.value, candidates, n, folds, groupExits);
      m, matrices := Some(scattered), results.value;
    }
  }
}
