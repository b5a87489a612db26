/**
 * sealDate as it is coded, over an archive directory that other sealers use at the same time. The
 * sealing processes are part of the state: before every file operation any of the others may have
 * taken any number of steps, and the operation itself may fail.
 */
module ForensicArchive {
  import opened Prelude
  import opened CanonicalJson
  import opened ForensicIntegrity
  import opened ForensicSealing

  datatype ArchiveResult = ArchiveResult(archiveSha256: string, eventCount: nat, reusedExistingArchive: bool)

  class Directory {
    const env: Env
    var archive: Option<Archive>
    var sidecar: Option<string>
    var sealers: seq<Sealer>
    ghost const preexisting: bool
    // The sealers one of whose operations failed.
    ghost var broken: set<nat>

    ghost function S(): State
      reads this
    {
      State(Files(archive, sidecar), sealers)
    }

    ghost predicate Valid()
      reads this
    {
      env.Sound() && Inv(env, S(), preexisting)
    }

    // Sealers that start on the files found.
    constructor (env: Env, archive: Option<Archive>, sidecar: Option<string>, sealers: seq<Sealer>)
      requires env.Sound() && Fresh(State(Files(archive, sidecar), sealers))
      ensures Valid() && S() == State(Files(archive, sidecar), sealers) && this.env == env
      ensures preexisting == archive.Some? && broken == {}
    {
      this.env, this.archive, this.sidecar, this.sealers := env, archive, sidecar, sealers;
      preexisting, broken := archive.Some?, {};
    }

    // One file operation of a sealer: the files and the sealer after it are those of its step.
    method Advance(i: nat, createdAt: string, iv: nat, files: Files, after: Sealer)
      requires Valid() && Legal(S(), Step(i, createdAt, iv))
      requires Stepped(env, S().files, sealers[i], createdAt, iv) == (files, after)
      modifies this`archive, this`sidecar, this`sealers
      ensures Valid() && S() == Apply(env, old(S()), Step(i, createdAt, iv))
      ensures S().files == files && sealers == old(sealers)[i := after] && OnlyAdds(old(S().files), files)
    {
      StepKeepsInv(env, S(), Step(i, createdAt, iv), preexisting);
      archive, sidecar, sealers := files.archive, files.sidecar, sealers[i := after];
    }

    method Fail(i: nat)
      requires Valid() && Legal(S(), Error(i))
      modifies this`sealers, this`broken
      ensures Valid() && S() == Apply(env, old(S()), Error(i)) && broken == old(broken) + {i}
    {
      StepKeepsInv(env, S(), Error(i), preexisting);
      broken := broken + {i};
      sealers := sealers[i := sealers[i].(pc := Failed(FileError))];
    }

    // Before an operation of this sealer the others go on; then the operation may fail.
    method Await(me: nat) returns (failed: bool)
      requires Valid() && me < |sealers| && !Ended(sealers[me].pc)
      modifies this`archive, this`sidecar, this`sealers, this`broken
      ensures Valid() && |sealers| == |old(sealers)| && OnlyAdds(old(S().files), S().files)
      ensures sealers[me] == if failed then old(sealers)[me].(pc := Failed(FileError)) else old(sealers)[me]
      ensures me in broken <==> me in old(broken) || failed
    {
      var turns: int := *;
      while turns > 0
        invariant Valid() && |sealers| == |old(sealers)| && OnlyAdds(old(S().files), S().files)
        invariant sealers[me] == old(sealers)[me] && (me in broken <==> me in old(broken))
        decreases turns
      {
        turns := turns - 1;
        var i: int, iv: int, createdAt: string, breaks: bool := *, *, *, *;
        if 0 <= i < |sealers| && i != me && iv >= 0 && !Ended(sealers[i].pc) {
          if breaks {
            Fail(i);
          } else {
            var (files, after) := Stepped(env, Files(archive, sidecar), sealers[i], createdAt, iv);
            Advance(i, createdAt, iv, files, after);
          }
        }
      }
      failed := *;
      if failed {
        Fail(me);
      }
    }

    // The files, with this sealer moved on.
    method GoTo(me: nat, pc: Pc, createdAt: string, iv: nat)
      requires Valid() && Legal(S(), Step(me, createdAt, iv))
      requires Stepped(env, S().files, sealers[me], createdAt, iv) == (S().files, sealers[me].(pc := pc))
      modifies this`archive, this`sidecar, this`sealers
      ensures Valid() && S().files == old(S().files) && sealers == old(sealers)[me := old(sealers)[me].(pc := pc)]
    {
      Advance(me, createdAt, iv, Files(archive, sidecar), sealers[me].(pc := pc));
    }

    // Verifies the archive that is there; false is a throw.
    method VerifyExisting(me: nat) returns (ok: bool)
      requires Valid() && me < |sealers| && archive.Some? &&
               (sealers[me].pc.ReadArchive? || sealers[me].pc.RereadArchive?)
      modifies this`archive, this`sidecar, this`sealers
      ensures Valid() && S().files == old(S().files) && |sealers| == |old(sealers)|
      ensures ok == env.accepts(archive.value.text, old(sealers)[me].records)
      ensures sealers[me] == old(sealers)[me].(pc := if ok then ReadSidecar(archive.value) else Failed(Rejected))
    {
      ok := env.accepts(archive.value.text, sealers[me].records);
      GoTo(me, if ok then ReadSidecar(archive.value) else Failed(Rejected), "", 0);
    }

    // ensureSha256Sidecar, for the archive this sealer holds.
    method EnsureSidecar(me: nat, a: Archive) returns (failure: Option<Failure>)
      requires Valid() && me < |sealers| && sealers[me].pc == ReadSidecar(a)
      modifies this`archive, this`sidecar, this`sealers, this`broken
      ensures Valid() && |sealers| == |old(sealers)| && OnlyAdds(old(S().files), S().files)
      ensures me in broken <==> me in old(broken) || failure == Some(FileError)
      ensures sealers[me] == old(sealers)[me].(pc := if failure.Some? then Failed(failure.value)
                                                     else Finish(env, old(sealers)[me], a))
    {
      var expected := env.Checksum(a);
      var failed := Await(me);
      if failed {
        return Some(FileError);
      }
      if sidecar.Some? {
        failure := if sidecar.value != expected then Some(ChecksumConflict) else None;
        GoTo(me, if failure.Some? then Failed(ChecksumConflict) else Finish(env, sealers[me], a), "", 0);
        return;
      }
      GoTo(me, LinkSidecar(a), "", 0);
      failed := Await(me);
      if failed {
        return Some(FileError);
      }
      if sidecar.None? {
        Advance(me, "", 0, Files(archive, Some(expected)), sealers[me].(pc := Finish(env, sealers[me], a)));
        return None;
      }
      GoTo(me, RereadSidecar(a), "", 0);
      failed := Await(me);
      if failed {
        return Some(FileError);
      }
      failure := if sidecar.value != expected then Some(ChecksumConflict) else None;
      GoTo(me, if failure.Some? then Failed(ChecksumConflict) else Finish(env, sealers[me], a), "", 0);
    }

    // The archive part of sealDate: an existing archive is verified, otherwise one is built and
    // linked, and when another sealer was faster, its archive is verified.
    method EnsureArchive(me: nat, createdAt: string, iv: nat) returns (failure: Option<Failure>)
      requires Valid() && me < |sealers| && sealers[me].pc.ReadArchive?
      modifies this`archive, this`sidecar, this`sealers, this`broken
      ensures Valid() && |sealers| == |old(sealers)| && OnlyAdds(old(S().files), S().files)
      ensures sealers[me].records == old(sealers)[me].records
      ensures me in broken <==> me in old(broken) || failure == Some(FileError)
      ensures sealers[me].created ==> archive == Some(Archive(env.seal(createdAt, old(sealers)[me].records), iv))
      ensures failure.Some? ==> sealers[me].pc == Failed(failure.value)
      ensures failure.None? ==> archive.Some? && sealers[me].pc == ReadSidecar(archive.value)
      ensures sealers[me].created ==> old(archive).None? && failure.None?
    {
      var failed := Await(me);
      if failed {
        return Some(FileError);
      }
      if archive.Some? {
        var ok := VerifyExisting(me);
        return if ok then None else Some(Rejected);
      }
      var contents := Archive(env.seal(createdAt, sealers[me].records), iv);
      GoTo(me, LinkArchive(contents), createdAt, iv);
      failed := Await(me);
      if failed {
        return Some(FileError);
      }
      if archive.None? {
        Advance(me, "", 0, Files(Some(contents), sidecar), sealers[me].(pc := ReadSidecar(contents), created := true));
        return None;
      }
      GoTo(me, RereadArchive, "", 0);
      failed := Await(me);
      if failed {
        return Some(FileError);
      }
      var ok := VerifyExisting(me);
      return if ok then None else Some(Rejected);
    }

    /**
     * Seals the day for one sealer. Whatever the others do meanwhile, a result names the archive and
     * the checksum that are in the directory, the archive passes verification for the records this
     * sealer read, and an archive that was there before is kept, reused, or refused.
     */
    method SealDate(me: nat, createdAt: string, iv: nat) returns (r: Result<ArchiveResult, Failure>)
      requires Valid() && me < |sealers| && sealers[me].pc.ReadArchive?
      modifies this`archive, this`sidecar, this`sealers, this`broken
      ensures Valid() && |sealers| == |old(sealers)| && OnlyAdds(old(S().files), S().files)
      ensures match r
              case Err(Rejected) =>
                archive.Some? && !env.accepts(archive.value.text, old(sealers)[me].records)
              case Err(ChecksumConflict) =>
                && archive.Some? && sidecar.Some?
                && sidecar.value != env.digest(archive.value) + "  " + env.fileName + "\n"
              case Err(FileError) => me in broken
              case Ok(result) =>
                && archive.Some? && env.accepts(archive.value.text, old(sealers)[me].records)
                && sidecar == Some(env.digest(archive.value) + "  " + env.fileName + "\n")
                && result.archiveSha256 == env.digest(archive.value)
                && result.eventCount == |old(sealers)[me].records|
                && (!result.reusedExistingArchive ==>
                      archive == Some(Archive(env.seal(createdAt, old(sealers)[me].records), iv)))
      ensures me in broken <==> me in old(broken) || r == Err(FileError)
      ensures sealers[me].pc == match r
                                case Err(why) => Failed(why)
                                case Ok(result) => Done(result.archiveSha256, result.eventCount,
                                                        result.reusedExistingArchive)
      ensures old(archive).Some? && r.Ok? ==> r.value.reusedExistingArchive
      ensures old(archive).Some? && !env.accepts(old(archive).value.text, old(sealers)[me].records) ==> r.Err?
    {
      var failure := EnsureArchive(me, createdAt, iv);
      if failure.Some? {
        return Err(failure.value);
      }
      var a := archive.value;
      failure := EnsureSidecar(me, a);
      if failure.Some? {
        return Err(failure.value);
      }
      assert Consistent(env, S().files, sealers[me]);
      var x := sealers[me];
      return Ok(ArchiveResult(env.digest(a), |x.records|, !x.created));
    }
  }
}
