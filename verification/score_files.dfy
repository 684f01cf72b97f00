/** The score files of one generation: who writes which file, and what is read back. */
module ScoreFiles {
  import opened CmaEs

  /** A group's directory is named by eight characters of its hash, its spec file by twelve. */
  const DIRECTORY_CHARS := 8
  const SPEC_CHARS := 12

  /** One successful evaluator run over one group and fold. */
  datatype Run = Run(hash: string, fold: nat, scores: seq<Score>)

  /** `grp_<hash[:8]>/fold_<f>`. */
  function FileOf(run: Run): (string, nat)
    requires |run.hash| >= DIRECTORY_CHARS
  {
    (run.hash[..DIRECTORY_CHARS], run.fold)
  }

  predicate Named(runs: seq<Run>) {
    forall k | 0 <= k < |runs| :: |runs[k].hash| >= DIRECTORY_CHARS
  }

  /** The files after these runs, in this order. */
  function FilesAfter(runs: seq<Run>, files: map<(string, nat), seq<Score>>): map<(string, nat), seq<Score>>
    requires Named(runs)
  {
    if |runs| == 0 then files else
      var n := |runs| - 1;
      FilesAfter(runs[..n], files)[FileOf(runs[n]) := runs[n].scores]
  }

  /** After all runs, the file of every run holds that run's own scores. */
  ghost predicate EveryFileOwn(runs: seq<Run>, files: map<(string, nat), seq<Score>>)
    requires Named(runs)
  {
    forall k | 0 <= k < |runs| ::
      FileOf(runs[k]) in FilesAfter(runs, files) && FilesAfter(runs, files)[FileOf(runs[k])] == runs[k].scores
  }

  /** Runs that share a file wrote the same scores. */
  ghost predicate Coincide(runs: seq<Run>)
    requires Named(runs)
  {
    forall j, k | 0 <= j < |runs| && 0 <= k < |runs| && FileOf(runs[j]) == FileOf(runs[k]) ::
      runs[j].scores == runs[k].scores
  }

  /** Whatever the order of the runs: all groups find their own scores if and only if groups
      whose hashes share eight characters have the same scores; so in particular when no two
      do. */
  lemma {:induction false} OwnFilesIffCoincide(runs: seq<Run>, files: map<(string, nat), seq<Score>>)
    requires Named(runs)
    ensures EveryFileOwn(runs, files) <==> Coincide(runs)
  {
    forall k | 0 <= k < |runs|
      ensures Coincide(runs) ==>
        FileOf(runs[k]) in FilesAfter(runs, files) && FilesAfter(runs, files)[FileOf(runs[k])] == runs[k].scores
    {
      var j := FileFrom(runs, files, k);
    }
  }

  /** The file of run k holds the scores of run j, which shares it. */
  predicate WrittenBy(runs: seq<Run>, files: map<(string, nat), seq<Score>>, k: nat, j: nat)
    requires Named(runs) && k < |runs| && j < |runs|
  {
    && FileOf(runs[j]) == FileOf(runs[k]) && FileOf(runs[k]) in FilesAfter(runs, files)
    && FilesAfter(runs, files)[FileOf(runs[k])] == runs[j].scores
  }

  lemma {:induction false} FileFrom(runs: seq<Run>, files: map<(string, nat), seq<Score>>, k: nat) returns (j: nat)
    requires Named(runs) && k < |runs|
    ensures j < |runs| && WrittenBy(runs, files, k, j)
  {
    j := |runs| - 1;
    if FileOf(runs[j]) != FileOf(runs[k]) {
      j := FileFrom(runs[..j], files, k);
    }
  }

  /** An input that goes wrong: two groups, different hashes, one directory. After both runs the
      first group's file holds the second group's scores. */
  lemma {:induction false} CollidingInput(files: map<(string, nat), seq<Score>>)
    ensures var a := Run("0f3a9c21aaaaaaaa", 0, [Fin(1.0)]);
      var b := Run("0f3a9c21bbbbbbbb", 0, [Fin(2.0)]);
      && a.hash != b.hash && Named([a, b])
      && FileOf(a) in FilesAfter([a, b], files)
      && FilesAfter([a, b], files)[FileOf(a)] == b.scores != a.scores
      && !EveryFileOwn([a, b], files)
  {
    var a := Run("0f3a9c21aaaaaaaa", 0, [Fin(1.0)]);
    var b := Run("0f3a9c21bbbbbbbb", 0, [Fin(2.0)]);
    assert a.hash[8] != b.hash[8];
    assert a.hash[..8] == b.hash[..8] == "0f3a9c21";
    assert [a, b][..1] == [a];
    assert FilesAfter([a, b], files)[FileOf(a)] == b.scores;
    assert [a, b][0] == a;
  }

  // ----- who is last -----

  /** The last of the hashes that agree with the k-th in their first n characters. */
  function LastSharing(hashes: seq<string>, k: nat, n: nat): (last: nat)
    requires k < |hashes| && forall i | 0 <= i < |hashes| :: |hashes[i]| >= n
    ensures k <= last < |hashes| && hashes[last][..n] == hashes[k][..n]
    ensures forall i | last < i < |hashes| :: hashes[i][..n] != hashes[k][..n]
  {
    var m := |hashes| - 1;
    if hashes[m][..n] == hashes[k][..n] then m else LastSharing(hashes[..m], k, n)
  }

  /** The last of a directory is also the last of its spec file. */
  lemma {:induction false} LastIsLast(hashes: seq<string>, k: nat)
    requires k < |hashes| && forall i | 0 <= i < |hashes| :: |hashes[i]| >= SPEC_CHARS
    ensures var j := LastSharing(hashes, k, DIRECTORY_CHARS);
      LastSharing(hashes, j, SPEC_CHARS) == j && LastSharing(hashes, j, DIRECTORY_CHARS) == j
  {
    var j := LastSharing(hashes, k, DIRECTORY_CHARS);
    var i := LastSharing(hashes, j, SPEC_CHARS);
    assert hashes[i][..SPEC_CHARS][..DIRECTORY_CHARS] == hashes[i][..DIRECTORY_CHARS];
    assert hashes[j][..SPEC_CHARS][..DIRECTORY_CHARS] == hashes[j][..DIRECTORY_CHARS];
  }

  predicate PrefixesDiffer(hashes: seq<string>) {
    && (forall i | 0 <= i < |hashes| :: |hashes[i]| >= DIRECTORY_CHARS)
    && (forall i, j | 0 <= i < j < |hashes| :: hashes[i][..DIRECTORY_CHARS] != hashes[j][..DIRECTORY_CHARS])
  }

  /** One hash more: the new one is last for all that share with it. */
  lemma {:induction false} LastSharingSnoc(hashes: seq<string>, h: string, k: nat, n: nat)
    requires k < |hashes| && |h| >= n && forall i | 0 <= i < |hashes| :: |hashes[i]| >= n
    ensures LastSharing(hashes + [h], k, n) == if h[..n] == hashes[k][..n] then |hashes| else LastSharing(hashes, k, n)
  {
    assert (hashes + [h])[..|hashes|] == hashes;
  }

  // ----- columns -----

  /** `np.full((n, folds), -inf)`. */
  type Matrix = seq<seq<Score>>

  function Filled(n: nat, folds: nat): (m: Matrix)
    ensures |m| == n && forall i | 0 <= i < n :: m[i] == seq(folds, _ => NegInf)
  {
    seq(n, _ => seq(folds, _ => NegInf))
  }

  predicate Shaped(m: Matrix, n: nat, folds: nat) {
    |m| == n && forall i | 0 <= i < n :: |m[i]| == folds
  }

  /** Whether a score vector can be assigned to a column of n rows. */
  predicate Fits(scores: seq<Score>, n: nat) {
    |scores| == n || |scores| == 1
  }

  /** A vector of length one is broadcast. */
  function Broadcast(scores: seq<Score>, n: nat): (r: seq<Score>)
    requires Fits(scores, n)
    ensures |r| == n
    ensures |scores| == n ==> r == scores
    ensures |scores| == 1 ==> forall i | 0 <= i < n :: r[i] == scores[0]
  {
    if |scores| == n then scores else seq(n, _ => scores[0])
  }

  /** `m[:, f] = scores`. */
  function SetColumn(m: Matrix, f: nat, scores: seq<Score>): (r: Matrix)
    requires |scores| == |m| && forall i | 0 <= i < |m| :: f < |m[i]|
    ensures |r| == |m| && forall i | 0 <= i < |m| :: r[i] == m[i][f := scores[i]]
  {
    seq(|m|, i requires 0 <= i < |m| => m[i][f := scores[i]])
  }
}
