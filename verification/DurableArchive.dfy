/** The object of src/wc_fusion/archive.py; `RawArchive` specifies its atomic steps. */
module DurableArchiveObject {
  import opened Common
  import opened RA = RawArchive

  class DurableArchive {
    const capacity: nat
    var waiting: seq<Job>
    var results: seq<ArchiveResult>
    var outstanding: map<Key, Path>
    var paths: set<Path>
    var closing: bool
    var failure: Option<string>
    var stop: bool
    var worker: Worker
    var temp: Option<File>
    var disk: Disk
    ghost var submitted: seq<Job>
    ghost var delivered: seq<ArchiveResult>

    ghost function Abstract(): State
      reads this
    {
      State(capacity, waiting, results, outstanding, paths, closing, failure, stop, worker, temp, disk, submitted,
            delivered)
    }

    constructor (capacity: nat, disk: Disk)
      requires 1 <= capacity <= 8
      ensures this.capacity == capacity && Abstract() == RA.Start(capacity, disk)
    {
      this.capacity, this.disk := capacity, disk;
      waiting, results, outstanding, paths := [], [], map[], {};
      closing, failure, stop, worker, temp := false, None, false, Idle, None;
      submitted, delivered := [], [];
    }

    /** Accept a job or raise; the worker sees it later. */
    method SubmitJob(key: Key, path: Path, payload: Bytes) returns (error: Option<string>)
      modifies this
      ensures error == RA.SubmitError(old(Abstract()), key, path, payload)
      ensures Abstract() == RA.Step(old(Abstract()), Submit(key, path, payload))
    {
      if key == "" {
        return Some("ARCHIVE_KEY");
      }
      if payload == "" {
        return Some("ARCHIVE_PAYLOAD");
      }
      if path == "" {
        return Some("ARCHIVE_PATH");
      }
      if closing {
        return Some("ARCHIVE_CLOSED");
      }
      if failure.Some? {
        return Some("ARCHIVE_FAILED");
      }
      if key in outstanding || path in paths {
        return Some("ARCHIVE_DUPLICATE");
      }
      if |outstanding| >= capacity {
        return Some("ARCHIVE_QUEUE_FULL");
      }
      var job := Job(key, path, payload);
      outstanding, paths, waiting, submitted := outstanding[key := path], paths + {path}, waiting + [job], submitted + [job];
      return None;
    }

    /** Hand out the results in order and take their keys and paths off the books. */
    method PollResults() returns (polled: seq<ArchiveResult>)
      modifies this
      ensures polled == old(results) && Abstract() == RA.Step(old(Abstract()), Poll)
    {
      polled := results;
      var keys, names := outstanding, paths;
      assert keys == RA.Settle(outstanding, paths, polled[..0]).0 && names == RA.Settle(outstanding, paths, polled[..0]).1;
      for i := 0 to |polled|
        modifies {}
        invariant keys == RA.Settle(outstanding, paths, polled[..i]).0
        invariant names == RA.Settle(outstanding, paths, polled[..i]).1
      {
        SettleOneMore(outstanding, paths, polled, i);
        keys, names := keys - {polled[i].key}, names - {polled[i].path};
      }
      assert polled[..|polled|] == polled;
      ghost var books := RA.Settle(outstanding, paths, polled);
      results, outstanding, paths, delivered := [], keys, names, delivered + polled;
      assert outstanding == books.0 && paths == books.1;
    }

    static lemma SettleOneMore(outstanding: map<Key, Path>, paths: set<Path>, polled: seq<ArchiveResult>, i: nat)
      requires i < |polled|
      ensures var before, after := RA.Settle(outstanding, paths, polled[..i]), RA.Settle(outstanding, paths, polled[..i + 1]);
              after.0 == before.0 - {polled[i].key} && after.1 == before.1 - {polled[i].path}
    {
      assert polled[..i + 1] == polled[..i] + [polled[i]];
      assert (set r | r in polled[..i + 1] :: r.key) == (set r | r in polled[..i] :: r.key) + {polled[i].key};
      assert (set r | r in polled[..i + 1] :: r.path) == (set r | r in polled[..i] :: r.path) + {polled[i].path};
    }

    /** Stop admission and ask the worker to cancel. */
    method RequestClose()
      modifies this
      ensures Abstract() == RA.Step(old(Abstract()), Close)
    {
      closing, stop := true, true;
    }

    /** The worker's first section: take a job or leave the loop. */
    method TakeJob()
      modifies this
      ensures Abstract() == RA.Take(old(Abstract()))
    {
      if waiting != [] {
        var job := waiting[0];
        waiting := waiting[1..];
        if failure.Some? {
          worker := Finishing(job, Some("ARCHIVE_CANCELLED_AFTER_FAILURE"));
        } else if closing {
          worker := Finishing(job, Some(CANCELLED));
        } else {
          worker := Committing(job, Opening);
        }
      } else if closing {
        worker := Exited;
      }
    }

    /** The worker's last section: latch a first error and queue the result. */
    method FinishJob(job: Job, error: Option<string>)
      modifies this
      ensures Abstract() == RA.Finish(old(Abstract()), job, error)
    {
      if error.Some? && failure.None? {
        failure, stop := error, true;
      }
      results, worker := results + [ArchiveResult(job.key, job.path, error)], Idle;
    }

    /** One atomic step of the worker thread, given the system's answer. */
    method WorkerStep(outcome: Outcome)
      modifies this
      ensures Abstract() == RA.Step(old(Abstract()), Work(outcome))
    {
      hide RA.Commit, RA.Take, RA.Finish;
      match worker {
        case Idle => TakeJob();
        case Committing(job, stage) => CommitStep(job, stage, outcome);
        case Finishing(job, error) => FinishJob(job, error);
        case Exited =>
      }
    }

    /** The transaction raises, after removing its temporary file. */
    method AbortJob(job: Job, error: string)
      modifies this
      ensures Abstract() == RA.Abort(old(Abstract()), job, error)
    {
      worker, temp := Finishing(job, Some(error)), None;
    }

    method CommitStep(job: Job, stage: Stage, outcome: Outcome)
      modifies this
      ensures Abstract() == RA.Commit(old(Abstract()), job, stage, outcome)
    {
      if stop && (stage.Opening? || stage.Creating? || stage.BeforeLink?) {
        AbortJob(job, CANCELLED);
        return;
      }
      if stage.BeforeLink? {
        worker := Committing(job, Linking);
        return;
      }
      if stage.Linking? {
        if outcome.Fails? || temp.None? || job.path in disk.files {
          AbortJob(job, IO_ERROR);
          return;
        }
        disk := disk.(files := disk.files[job.path := temp.value]);
      }
      if stage.SyncingDirectory? && outcome.Succeeds? {
        disk := disk.(named := disk.named + {job.path});
        worker := Finishing(job, None);
        return;
      }
      if outcome.Fails? || outcome.FailsAfter? || stage.SyncingDirectory? {
        AbortJob(job, IO_ERROR);
        return;
      }
      if stage.Opening? {
        worker, temp := Committing(job, Creating), None;
      } else if stage.Creating? {
        worker, temp := Committing(job, Writing), Some(File("", false));
      } else if stage.Writing? {
        worker, temp := Committing(job, SyncingFile), Some(File(job.payload, false));
      } else if stage.SyncingFile? {
        worker, temp := Committing(job, BeforeLink), if temp.Some? then Some(temp.value.(synced := true)) else None;
      } else if stage.Linking? && outcome.Succeeds? {
        worker := Committing(job, Unlinking);
      } else {
        worker, temp := Committing(job, SyncingDirectory), None;
      }
    }
  }
}
