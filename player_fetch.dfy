/** The resumable fetch of every player's game log for a season: a walk over
    a fixed list of player ids that skips ids already processed, marks every
    attempted id processed whether its fetch succeeds or raises, and dumps a
    checkpoint of (records, processed ids) on the success path at every 25th
    list position. */
module PlayerFetch {
  import opened Wrappers
  import opened Seqs

  type PlayerId = int

  /** The stats the script goes on to roll, in this order: PTS, REB, AST,
      STL, BLK, TOV, FG_PCT, FG3_PCT, FT_PCT. */
  const PlayerStatCount: nat := 9

  type StatLine = s: seq<real> | |s| == PlayerStatCount witness seq(9, _ => 0.0)

  /** One row of a player's game log as the stats service returns it: the
      player, the game date (a day number), MATCHUP and the rolled stats. */
  datatype GameLogRow = GameLogRow(playerId: PlayerId, gameDate: int, matchup: string, stats: StatLine)

  /** What a fetch of one player's log does: it returns a (possibly empty)
      frame or raises. */
  datatype FetchResult = Ok(rows: seq<GameLogRow>) | Err

  /** A checkpoint is dumped after list positions i with (i + 1) % CheckpointEvery == 0. */
  const CheckpointEvery: nat := 25

  /** The service, as a map from ids to outcomes; an id it does not know raises. */
  function Fetch(oracle: map<PlayerId, FetchResult>, id: PlayerId): (r: FetchResult)
    ensures id !in oracle ==> r == Err
    ensures id in oracle ==> r == oracle[id]
  {
    if id in oracle then oracle[id] else Err
  }

  /** The rows a fetch contributes: its frame, or nothing when it raises. */
  function RowsOf(oracle: map<PlayerId, FetchResult>, id: PlayerId): seq<GameLogRow>
  {
    match Fetch(oracle, id)
    case Ok(rows) => rows
    case Err => []
  }

  /** The contents of the two checkpoint files when a snapshot is taken. */
  datatype Snapshot = Snapshot(position: nat, records: seq<GameLogRow>, processed: set<PlayerId>)

  /** The state of the loop: the accumulated frame and processed set, plus
      the log of fetch attempts and of checkpoints dumped in this run. */
  datatype State = State(records: seq<GameLogRow>, processed: set<PlayerId>,
                         attempts: seq<PlayerId>, snapshots: seq<Snapshot>)

  /** Where a run starts: the checkpoint when both files exist, otherwise an
      empty frame and an empty set (a lone file is ignored). */
  function Start(dfFile: Option<seq<GameLogRow>>, setFile: Option<set<PlayerId>>): (s: State)
    ensures s.attempts == [] && s.snapshots == []
    ensures dfFile.Some? && setFile.Some? ==> s.records == dfFile.value && s.processed == setFile.value
    ensures dfFile.None? || setFile.None? ==> s.records == [] && s.processed == {}
  {
    if dfFile.Some? && setFile.Some? then State(dfFile.value, setFile.value, [], [])
    else State([], {}, [], [])
  }

  /** One iteration of the loop body, for list position i holding id. */
  function Step(s: State, i: nat, id: PlayerId, oracle: map<PlayerId, FetchResult>): State
  {
    if id in s.processed then s
    else
      match Fetch(oracle, id)
      case Err =>
        s.(processed := s.processed + {id}, attempts := s.attempts + [id])
      case Ok(rows) =>
        var records := if rows == [] then s.records else s.records + rows;
        var processed := s.processed + {id};
        var next := s.(records := records, processed := processed, attempts := s.attempts + [id]);
        if (i + 1) % CheckpointEvery == 0 then
          next.(snapshots := s.snapshots + [Snapshot(i, records, processed)])
        else next
  }

  /** The loop over list positions lo .. hi - 1, starting in state s. */
  function Run(s: State, ids: seq<PlayerId>, oracle: map<PlayerId, FetchResult>, lo: nat, hi: nat): State
    requires lo <= hi <= |ids|
    decreases hi
  {
    if hi == lo then s
    else Step(Run(s, ids, oracle, lo, hi - 1), hi - 1, ids[hi - 1], oracle)
  }

  /** The rows gathered by fetching the ids of xs in order. */
  function Gathered(oracle: map<PlayerId, FetchResult>, xs: seq<PlayerId>): seq<GameLogRow>
  {
    if xs == [] then [] else Gathered(oracle, xs[..|xs| - 1]) + RowsOf(oracle, xs[|xs| - 1])
  }

  /** A checkpoint is due after position p of a run from s: the id there is
      new, its fetch succeeds, and p + 1 is a multiple of 25. */
  predicate Triggers(s: State, ids: seq<PlayerId>, oracle: map<PlayerId, FetchResult>, p: nat)
    requires p < |ids|
  {
    (p + 1) % CheckpointEvery == 0 && ids[p] !in Run(s, ids, oracle, 0, p).processed
    && Fetch(oracle, ids[p]).Ok?
  }

  // ---------------------------------------------------------------------
  // Properties of the loop

  /** Every id of the list ends up processed, whether its fetch succeeded or
      raised, and no other id is added. */
  lemma {:induction false} RunProcessed(s: State, ids: seq<PlayerId>, oracle: map<PlayerId, FetchResult>, n: nat)
    requires n <= |ids|
    ensures Run(s, ids, oracle, 0, n).processed == s.processed + Elems(ids[..n])
  {
    if n > 0 {
      RunProcessed(s, ids, oracle, n - 1);
      assert ids[..n] == ids[..n - 1] + [ids[n - 1]];
    }
  }

  /** Exactly-once fetching: the run fetches, once each and in list order,
      exactly the listed ids not processed at the start (FirstSeenExact). */
  lemma {:induction false} RunAttempts(s: State, ids: seq<PlayerId>, oracle: map<PlayerId, FetchResult>, n: nat)
    requires n <= |ids|
    ensures Run(s, ids, oracle, 0, n).attempts == s.attempts + FirstSeen(s.processed, ids[..n])
  {
    if n > 0 {
      RunAttempts(s, ids, oracle, n - 1);
      RunProcessed(s, ids, oracle, n - 1);
      assert ids[..n][..n - 1] == ids[..n - 1];
      assert ids[n - 1] in s.processed + Elems(ids[..n - 1]) <==> ids[n - 1] in s.processed || ids[n - 1] in ids[..n - 1];
    }
  }

  /** The accumulated frame is the starting frame followed by the rows of the
      fetched ids, in the order fetched. */
  lemma {:induction false} RunRecords(s: State, ids: seq<PlayerId>, oracle: map<PlayerId, FetchResult>, n: nat)
    requires n <= |ids|
    ensures Run(s, ids, oracle, 0, n).records == s.records + Gathered(oracle, FirstSeen(s.processed, ids[..n]))
  {
    if n > 0 {
      RunRecords(s, ids, oracle, n - 1);
      RunProcessed(s, ids, oracle, n - 1);
      var xs := ids[..n];
      var prev := Run(s, ids, oracle, 0, n - 1);
      assert xs[..n - 1] == ids[..n - 1];
      assert Run(s, ids, oracle, 0, n) == Step(prev, n - 1, xs[n - 1], oracle);
      RecordsAfterStep(s, prev, xs, n - 1, oracle);
    }
  }

  /** One more list position extends the frame by the rows of its id exactly
      when that id is new. */
  lemma RecordsAfterStep(s: State, prev: State, xs: seq<PlayerId>, i: nat, oracle: map<PlayerId, FetchResult>)
    requires |xs| > 0
    requires prev.records == s.records + Gathered(oracle, FirstSeen(s.processed, xs[..|xs| - 1]))
    requires prev.processed == s.processed + Elems(xs[..|xs| - 1])
    ensures Step(prev, i, xs[|xs| - 1], oracle).records == s.records + Gathered(oracle, FirstSeen(s.processed, xs))
  {
    var init := xs[..|xs| - 1];
    var x := xs[|xs| - 1];
    var p := FirstSeen(s.processed, init);
    assert x in prev.processed <==> x in s.processed || x in init;
    if x in prev.processed {
      SkipChangesNothing(prev, i, x, oracle);
      assert FirstSeen(s.processed, xs) == p;
    } else {
      StepOutcome(prev, i, x, oracle);
      assert FirstSeen(s.processed, xs) == p + [x];
      assert (p + [x])[..|p + [x]| - 1] == p;
      assert Gathered(oracle, p + [x]) == Gathered(oracle, p) + RowsOf(oracle, x);
    }
  }

  /** An id processed before the list position is reached is skipped: the
      frame, the set and both logs stay as they are. */
  lemma SkipChangesNothing(s: State, i: nat, id: PlayerId, oracle: map<PlayerId, FetchResult>)
    requires id in s.processed
    ensures Step(s, i, id, oracle) == s
  {
  }

  /** A fetch that raises or returns nothing appends no row; a non-empty one
      appends exactly its rows after the existing ones; either way the id is
      then processed. */
  lemma StepOutcome(s: State, i: nat, id: PlayerId, oracle: map<PlayerId, FetchResult>)
    requires id !in s.processed
    ensures Step(s, i, id, oracle).records == s.records + RowsOf(oracle, id)
    ensures Step(s, i, id, oracle).processed == s.processed + {id}
    ensures Step(s, i, id, oracle).attempts == s.attempts + [id]
  {
  }

  /** A checkpoint dumped in the first n positions of a run from s was due
      at its position and holds the frame and set just after it. */
  predicate DueAndFaithful(s: State, ids: seq<PlayerId>, oracle: map<PlayerId, FetchResult>, n: nat, snap: Snapshot)
    requires n <= |ids|
  {
    snap.position < n && Triggers(s, ids, oracle, snap.position) &&
    snap.records == Run(s, ids, oracle, 0, snap.position + 1).records &&
    snap.processed == Run(s, ids, oracle, 0, snap.position + 1).processed
  }

  /** Checkpoints are dumped only where they are due, in increasing list
      positions, and each holds the frame and set just after its position. */
  lemma {:induction false} SnapshotsSound(s: State, ids: seq<PlayerId>, oracle: map<PlayerId, FetchResult>, n: nat)
    requires n <= |ids|
    ensures var snaps := Run(s, ids, oracle, 0, n).snapshots;
      |s.snapshots| <= |snaps| && snaps[..|s.snapshots|] == s.snapshots &&
      (forall k :: |s.snapshots| <= k < |snaps| ==> DueAndFaithful(s, ids, oracle, n, snaps[k])) &&
      (forall k :: |s.snapshots| <= k < |snaps| - 1 ==> snaps[k].position < snaps[k + 1].position)
  {
    if n > 0 {
      SnapshotsSound(s, ids, oracle, n - 1);
      var before := Run(s, ids, oracle, 0, n - 1).snapshots;
      var after := Run(s, ids, oracle, 0, n).snapshots;
      forall k | |s.snapshots| <= k < |before|
        ensures DueAndFaithful(s, ids, oracle, n, before[k])
      {
        assert DueAndFaithful(s, ids, oracle, n - 1, before[k]);
      }
      if |after| != |before| {
        assert after == before + [Snapshot(n - 1, Run(s, ids, oracle, 0, n).records, Run(s, ids, oracle, 0, n).processed)];
        assert Triggers(s, ids, oracle, n - 1);
        assert DueAndFaithful(s, ids, oracle, n, after[|after| - 1]);
      } else {
        assert after == before;
      }
    }
  }

  /** Every position where a checkpoint is due gets one. */
  lemma {:induction false} SnapshotsComplete(s: State, ids: seq<PlayerId>, oracle: map<PlayerId, FetchResult>, n: nat, p: nat)
    requires p < n <= |ids|
    requires Triggers(s, ids, oracle, p)
    ensures exists k :: (0 <= k < |Run(s, ids, oracle, 0, n).snapshots| &&
                         Run(s, ids, oracle, 0, n).snapshots[k].position == p)
  {
    if p == n - 1 {
      var snaps := Run(s, ids, oracle, 0, n).snapshots;
      assert snaps[|snaps| - 1].position == p;
    } else {
      SnapshotsComplete(s, ids, oracle, n - 1, p);
      var k :| 0 <= k < |Run(s, ids, oracle, 0, n - 1).snapshots| &&
        Run(s, ids, oracle, 0, n - 1).snapshots[k].position == p;
      StepKeepsSnapshots(Run(s, ids, oracle, 0, n - 1), n - 1, ids[n - 1], oracle);
      assert Run(s, ids, oracle, 0, n).snapshots[k].position == p;
    }
  }

  lemma StepKeepsSnapshots(s: State, i: nat, id: PlayerId, oracle: map<PlayerId, FetchResult>)
    ensures |s.snapshots| <= |Step(s, i, id, oracle).snapshots|
    ensures Step(s, i, id, oracle).snapshots[..|s.snapshots|] == s.snapshots
  {
  }

  // ---------------------------------------------------------------------
  // Resuming

  /** Running positions lo .. hi in two stretches is running them at once. */
  lemma {:induction false} RunSplit(s: State, ids: seq<PlayerId>, oracle: map<PlayerId, FetchResult>, lo: nat, mid: nat, hi: nat)
    requires lo <= mid <= hi <= |ids|
    ensures Run(Run(s, ids, oracle, lo, mid), ids, oracle, mid, hi) == Run(s, ids, oracle, lo, hi)
    decreases hi
  {
    if hi > mid {
      RunSplit(s, ids, oracle, lo, mid, hi - 1);
    }
  }

  /** Positions whose ids are all processed change nothing. */
  lemma {:induction false} RunSkipsDone(s: State, ids: seq<PlayerId>, oracle: map<PlayerId, FetchResult>, lo: nat, hi: nat)
    requires lo <= hi <= |ids|
    requires forall j :: lo <= j < hi ==> ids[j] in s.processed
    ensures Run(s, ids, oracle, lo, hi) == s
    decreases hi
  {
    if hi > lo {
      RunSkipsDone(s, ids, oracle, lo, hi - 1);
    }
  }

  /** Frame and set after a stretch depend only on the frame and set before it. */
  lemma {:induction false} RunDataOnly(s: State, t: State, ids: seq<PlayerId>, oracle: map<PlayerId, FetchResult>, lo: nat, hi: nat)
    requires lo <= hi <= |ids|
    requires s.records == t.records && s.processed == t.processed
    ensures Run(s, ids, oracle, lo, hi).records == Run(t, ids, oracle, lo, hi).records
    ensures Run(s, ids, oracle, lo, hi).processed == Run(t, ids, oracle, lo, hi).processed
    decreases hi
  {
    if hi > lo {
      RunDataOnly(s, t, ids, oracle, lo, hi - 1);
    }
  }

  /** The checkpoint files after n positions of a run that started from
      `dfFile` and `setFile`: the last snapshot dumped, or the files as they were. */
  function FilesAfter(dfFile: Option<seq<GameLogRow>>, setFile: Option<set<PlayerId>>,
                      ids: seq<PlayerId>, oracle: map<PlayerId, FetchResult>, n: nat)
    : (Option<seq<GameLogRow>>, Option<set<PlayerId>>)
    requires n <= |ids|
  {
    var snaps := Run(Start(dfFile, setFile), ids, oracle, 0, n).snapshots;
    if snaps == [] then (dfFile, setFile)
    else (Some(snaps[|snaps| - 1].records), Some(snaps[|snaps| - 1].processed))
  }

  /** Resuming is harmless: a run interrupted after any number of positions
      and restarted from whatever checkpoint files it left ends with the same
      frame and the same processed set as a run that was never interrupted. */
  lemma ResumeAfterInterruption(dfFile: Option<seq<GameLogRow>>, setFile: Option<set<PlayerId>>,
                                ids: seq<PlayerId>, oracle: map<PlayerId, FetchResult>, n: nat)
    requires n <= |ids|
    ensures var files := FilesAfter(dfFile, setFile, ids, oracle, n);
      var resumed := Run(Start(files.0, files.1), ids, oracle, 0, |ids|);
      var whole := Run(Start(dfFile, setFile), ids, oracle, 0, |ids|);
      resumed.records == whole.records && resumed.processed == whole.processed
  {
    var s0 := Start(dfFile, setFile);
    var snaps := Run(s0, ids, oracle, 0, n).snapshots;
    if snaps != [] {
      SnapshotsSound(s0, ids, oracle, n);
      var last := snaps[|snaps| - 1];
      assert DueAndFaithful(s0, ids, oracle, n, last);
      ResumeFromPosition(s0, ids, oracle, last.position);
    }
  }

  /** Restarting from the frame and set a run holds just after position p
      ends where the run itself ends. */
  lemma ResumeFromPosition(s0: State, ids: seq<PlayerId>, oracle: map<PlayerId, FetchResult>, p: nat)
    requires p < |ids|
    ensures var mid := Run(s0, ids, oracle, 0, p + 1);
      var resumed := Run(Start(Some(mid.records), Some(mid.processed)), ids, oracle, 0, |ids|);
      resumed.records == Run(s0, ids, oracle, 0, |ids|).records &&
      resumed.processed == Run(s0, ids, oracle, 0, |ids|).processed
  {
    var mid := Run(s0, ids, oracle, 0, p + 1);
    var r := Start(Some(mid.records), Some(mid.processed));
    RunProcessed(s0, ids, oracle, p + 1);
    assert forall j :: 0 <= j < p + 1 ==> ids[j] in r.processed by {
      forall j | 0 <= j < p + 1 ensures ids[j] in r.processed {
        assert ids[..p + 1][j] == ids[j];
      }
    }
    RunSkipsDone(r, ids, oracle, 0, p + 1);
    RunSplit(r, ids, oracle, 0, p + 1, |ids|);
    RunSplit(s0, ids, oracle, 0, p + 1, |ids|);
    RunDataOnly(r, mid, ids, oracle, p + 1, |ids|);
  }

  // ---------------------------------------------------------------------
  // The loop as the script runs it

  class PlayerLogFetcher {
    /** The frame checkpoint file: Some(frame) when it exists. */
    var dfFile: Option<seq<GameLogRow>>
    /** The processed-set checkpoint file. */
    var setFile: Option<set<PlayerId>>
    var records: seq<GameLogRow>
    var processed: set<PlayerId>
    /** The ids fetched in this run, in order. */
    ghost var attempts: seq<PlayerId>
    /** The checkpoints dumped in this run, in order. */
    ghost var snapshots: seq<Snapshot>

    ghost function Abstract(): State
      reads this
    {
      State(records, processed, attempts, snapshots)
    }

    constructor (dfFile: Option<seq<GameLogRow>>, setFile: Option<set<PlayerId>>)
      ensures this.dfFile == dfFile && this.setFile == setFile
      ensures Abstract() == State([], {}, [], [])
    {
      this.dfFile := dfFile;
      this.setFile := setFile;
      records := [];
      processed := {};
      attempts := [];
      snapshots := [];
    }

    /** Loads the checkpoint when both files exist, else starts fresh. */
    method LoadCheckpoint()
      modifies this
      ensures Abstract() == Start(dfFile, setFile)
      ensures dfFile == old(dfFile) && setFile == old(setFile)
    {
      if dfFile.Some? && setFile.Some? {
        records := dfFile.value;
        processed := setFile.value;
      } else {
        records := [];
        processed := {};
      }
      attempts := [];
      snapshots := [];
    }

    /** Dumps the frame and the set into the two checkpoint files. */
    method SaveCheckpoint(i: nat)
      modifies this
      ensures dfFile == Some(records) && setFile == Some(processed)
      ensures snapshots == old(snapshots) + [Snapshot(i, records, processed)]
      ensures records == old(records) && processed == old(processed) && attempts == old(attempts)
    {
      dfFile := Some(records);
      setFile := Some(processed);
      snapshots := snapshots + [Snapshot(i, records, processed)];
    }

    /** get_all_player_logs_robust: the whole walk, then the cleanup that
        removes both checkpoint files; returns the accumulated frame. */
    method GetAllPlayerLogsRobust(ids: seq<PlayerId>, oracle: map<PlayerId, FetchResult>)
      returns (logs: seq<GameLogRow>)
      modifies this
      ensures Abstract() == Run(Start(old(dfFile), old(setFile)), ids, oracle, 0, |ids|)
      ensures logs == records
      ensures dfFile == None && setFile == None
    {
      LoadCheckpoint();
      ghost var s0 := Abstract();
      ghost var df0, set0 := dfFile, setFile;
      var i := 0;
      while i < |ids|
        invariant i <= |ids|
        invariant Abstract() == Run(s0, ids, oracle, 0, i)
        invariant snapshots == [] ==> dfFile == df0 && setFile == set0
        invariant snapshots != [] ==>
          dfFile == Some(snapshots[|snapshots| - 1].records) && setFile == Some(snapshots[|snapshots| - 1].processed)
      {
        var id := ids[i];
        if id !in processed {
          var outcome := Fetch(oracle, id);
          match outcome {
            case Ok(rows) =>
              if rows != [] {
                records := records + rows;
              }
              processed := processed + {id};
              attempts := attempts + [id];
              if (i + 1) % CheckpointEvery == 0 {
                SaveCheckpoint(i);
              }
            case Err =>
              processed := processed + {id};
              attempts := attempts + [id];
          }
        }
        i := i + 1;
      }
      dfFile := None;
      setFile := None;
      logs := records;
    }
  }

  /** What the script's call returns for a list of ids, a service and the
      checkpoint files found on disk: every listed id ends up processed, and
      the frame is the checkpointed rows followed by the rows of each new id
      in list order, each new id fetched once. */
  lemma FetchAllResult(dfFile: Option<seq<GameLogRow>>, setFile: Option<set<PlayerId>>,
                       ids: seq<PlayerId>, oracle: map<PlayerId, FetchResult>)
    ensures var s0 := Start(dfFile, setFile);
      var s := Run(s0, ids, oracle, 0, |ids|);
      s.processed == s0.processed + Elems(ids) &&
      s.records == s0.records + Gathered(oracle, FirstSeen(s0.processed, ids)) &&
      s.attempts == FirstSeen(s0.processed, ids) &&
      Distinct(s.attempts) && Elems(s.attempts) == Elems(ids) - s0.processed
  {
    var s0 := Start(dfFile, setFile);
    assert ids[..|ids|] == ids;
    RunProcessed(s0, ids, oracle, |ids|);
    RunRecords(s0, ids, oracle, |ids|);
    RunAttempts(s0, ids, oracle, |ids|);
    FirstSeenExact(s0.processed, ids);
  }
}
