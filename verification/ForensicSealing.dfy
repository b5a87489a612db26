/**
 * Sealing one day, by any number of sealers at once. The archive and its checksum file are each
 * created by linking a finished temporary file to a name that must not exist yet, and are never
 * replaced. Each step of a sealer is one file operation with the computation after it.
 */
module ForensicSealing {
  import opened Prelude
  import opened CanonicalJson
  import opened ForensicChain
  import opened ForensicIntegrity

  // An encrypted archive: the text it decrypts to and the random part that makes every one different.
  datatype Archive = Archive(text: string, iv: nat)

  datatype Files = Files(archive: Option<Archive>, sidecar: Option<string>)

  // What sealing computes: the text sealed for records at a time, whether a text passes
  // verification for records, and the digest of an archive file.
  datatype Env = Env(seal: (string, seq<Json>) -> string, accepts: (string, seq<Json>) -> bool,
                     digest: Archive -> string, fileName: string)
  {
    function Checksum(a: Archive): string { digest(a) + "  " + fileName + "\n" }

    ghost predicate Sound() {
      forall createdAt, records :: Canon(records) ==> accepts(seal(createdAt, records), records)
    }
  }

  function EnvOf(h: Hash, w: Window, digest: Archive -> string, fileName: string): Env {
    Env((createdAt, records) => SealedText(h, w, createdAt, records),
        (text, records) => AcceptsText(h, w, text, records), digest, fileName)
  }

  lemma EnvIsSound(h: Hash, w: Window, digest: Archive -> string, fileName: string)
    ensures EnvOf(h, w, digest, fileName).Sound()
  {
    forall createdAt, records | Canon(records)
      ensures EnvOf(h, w, digest, fileName).accepts(EnvOf(h, w, digest, fileName).seal(createdAt, records), records)
    {
      SealedIsAccepted(h, w, createdAt, records);
    }
  }

  datatype Failure = Rejected | ChecksumConflict | FileError

  datatype Pc =
    | ReadArchive
    | LinkArchive(a: Archive)
    | RereadArchive
    | ReadSidecar(a: Archive)
    | LinkSidecar(a: Archive)
    | RereadSidecar(a: Archive)
    | Done(archiveSha256: string, eventCount: nat, reused: bool)
    | Failed(why: Failure)

  // A sealer with the records it read; created is whether its own archive became the archive.
  datatype Sealer = Sealer(records: seq<Json>, pc: Pc, created: bool)

  datatype State = State(files: Files, sealers: seq<Sealer>)

  // One step of sealer i; the time and the random part matter only when it builds an archive.
  datatype Action = Step(i: nat, createdAt: string, iv: nat) | Error(i: nat)

  predicate Ended(pc: Pc) { pc.Done? || pc.Failed? }

  predicate Legal(s: State, a: Action) { a.i < |s.sealers| && !Ended(s.sealers[a.i].pc) }

  function Finish(env: Env, x: Sealer, a: Archive): Pc { Done(env.digest(a), |x.records|, !x.created) }

  // After reading an archive that is there.
  function Checked(env: Env, x: Sealer, a: Archive): Pc {
    if env.accepts(a.text, x.records) then ReadSidecar(a) else Failed(Rejected)
  }

  // After reading a checksum that is there.
  function Compared(env: Env, x: Sealer, a: Archive, found: string): Pc {
    if found == env.Checksum(a) then Finish(env, x, a) else Failed(ChecksumConflict)
  }

  // The files and the sealer after one step of it.
  function Stepped(env: Env, files: Files, x: Sealer, createdAt: string, iv: nat): (Files, Sealer) {
    match x.pc
    case ReadArchive =>
      (files, x.(pc := if files.archive.Some? then Checked(env, x, files.archive.value)
                       else LinkArchive(Archive(env.seal(createdAt, x.records), iv))))
    case LinkArchive(a) =>
      if files.archive.Some? then (files, x.(pc := RereadArchive))
      else (files.(archive := Some(a)), x.(pc := ReadSidecar(a), created := true))
    case RereadArchive =>
      (files, x.(pc := if files.archive.Some? then Checked(env, x, files.archive.value) else Failed(FileError)))
    case ReadSidecar(a) =>
      (files, x.(pc := if files.sidecar.Some? then Compared(env, x, a, files.sidecar.value) else LinkSidecar(a)))
    case LinkSidecar(a) =>
      if files.sidecar.Some? then (files, x.(pc := RereadSidecar(a)))
      else (files.(sidecar := Some(env.Checksum(a))), x.(pc := Finish(env, x, a)))
    case RereadSidecar(a) =>
      (files, x.(pc := if files.sidecar.Some? then Compared(env, x, a, files.sidecar.value) else Failed(FileError)))
    case _ => (files, x)
  }

  function Apply(env: Env, s: State, a: Action): State
    requires Legal(s, a)
  {
    var x := s.sealers[a.i];
    match a
    case Error(i) => s.(sealers := s.sealers[i := x.(pc := Failed(FileError))])
    case Step(i, createdAt, iv) =>
      var (files, y) := Stepped(env, s.files, x, createdAt, iv);
      State(files, s.sealers[i := y])
  }

  predicate LegalRun(env: Env, s: State, actions: seq<Action>)
    decreases |actions|
  {
    actions == [] || (Legal(s, actions[0]) && LegalRun(env, Apply(env, s, actions[0]), actions[1..]))
  }

  function Run(env: Env, s: State, actions: seq<Action>): State
    requires LegalRun(env, s, actions)
    decreases |actions|
  {
    if actions == [] then s else Run(env, Apply(env, s, actions[0]), actions[1..])
  }

  // Sealers that have read their records and nothing else.
  ghost predicate Fresh(s: State) {
    forall x :: x in s.sealers ==> x.pc.ReadArchive? && !x.created && Canon(x.records)
  }

  // ---- files are written once ----

  ghost predicate Grows<T(!new)>(before: Option<T>, after: Option<T>) { before.Some? ==> after == before }

  ghost predicate OnlyAdds(f: Files, g: Files) { Grows(f.archive, g.archive) && Grows(f.sidecar, g.sidecar) }

  /** A file that exists is never changed or removed, in any run. */
  lemma {:induction false} FilesAreWrittenOnce(env: Env, s: State, actions: seq<Action>)
    requires LegalRun(env, s, actions)
    ensures OnlyAdds(s.files, Run(env, s, actions).files)
    decreases |actions|
  {
    if actions != [] {
      FilesAreWrittenOnce(env, Apply(env, s, actions[0]), actions[1..]);
    }
  }

  // ---- the invariant ----

  // The archive a sealer goes on with.
  function Holds(pc: Pc): Option<Archive> {
    match pc
    case ReadSidecar(a) => Some(a)
    case LinkSidecar(a) => Some(a)
    case RereadSidecar(a) => Some(a)
    case _ => None
  }

  // What is true of one sealer, given the files.
  ghost predicate Consistent(env: Env, files: Files, x: Sealer) {
    && Canon(x.records)
    && (x.created ==> files.archive.Some? && env.accepts(files.archive.value.text, x.records))
    && (x.pc.LinkArchive? ==> !x.created && exists createdAt :: x.pc.a.text == env.seal(createdAt, x.records))
    && (x.pc.ReadArchive? ==> !x.created)
    && (x.pc.RereadArchive? ==> !x.created && files.archive.Some?)
    && (Holds(x.pc).Some? ==> files.archive == Holds(x.pc) && env.accepts(files.archive.value.text, x.records))
    && (x.pc.RereadSidecar? ==> files.sidecar.Some?)
    && (x.pc.Done? ==>
          && files.archive.Some? && env.accepts(files.archive.value.text, x.records)
          && files.sidecar == Some(env.Checksum(files.archive.value))
          && x.pc == Finish(env, x, files.archive.value))
    && (x.pc == Failed(Rejected) ==>
          files.archive.Some? && !env.accepts(files.archive.value.text, x.records))
    && (x.pc == Failed(ChecksumConflict) ==>
          files.archive.Some? && files.sidecar.Some? && files.sidecar.value != env.Checksum(files.archive.value))
  }

  // The archive was there before, or exactly one sealer created it.
  ghost predicate OneCreator(s: State, preexisting: bool) {
    && (s.files.archive.Some? ==> preexisting || exists i :: 0 <= i < |s.sealers| && s.sealers[i].created)
    && (forall i :: 0 <= i < |s.sealers| && s.sealers[i].created ==> !preexisting)
    && (forall i, j :: 0 <= i < j < |s.sealers| ==> !(s.sealers[i].created && s.sealers[j].created))
  }

  ghost predicate Inv(env: Env, s: State, preexisting: bool) {
    && (forall i :: 0 <= i < |s.sealers| ==> Consistent(env, s.files, s.sealers[i]))
    && (preexisting ==> s.files.archive.Some?)
    && OneCreator(s, preexisting)
  }

  lemma MoreFilesStayConsistent(env: Env, f: Files, g: Files, x: Sealer)
    requires Consistent(env, f, x) && OnlyAdds(f, g)
    ensures Consistent(env, g, x)
  {
  }

  lemma StepIsConsistent(env: Env, files: Files, x: Sealer, createdAt: string, iv: nat)
    requires env.Sound() && Consistent(env, files, x)
    ensures var (g, y) := Stepped(env, files, x, createdAt, iv);
            && OnlyAdds(files, g) && Consistent(env, g, y) && y.records == x.records
            && (y.created && !x.created ==> files.archive.None? && g.archive.Some?)
            && (x.created ==> y.created)
            && (g.archive != files.archive ==> y.created)
  {
  }

  lemma StepKeepsInv(env: Env, s: State, a: Action, preexisting: bool)
    requires env.Sound() && Inv(env, s, preexisting) && Legal(s, a)
    ensures Inv(env, Apply(env, s, a), preexisting)
  {
    var t := Apply(env, s, a);
    if a.Step? {
      StepIsConsistent(env, s.files, s.sealers[a.i], a.createdAt, a.iv);
    }
    forall k | 0 <= k < |t.sealers| ensures Consistent(env, t.files, t.sealers[k]) {
      if k != a.i {
        MoreFilesStayConsistent(env, s.files, t.files, s.sealers[k]);
      }
    }
    CreatorStays(env, s, a, preexisting);
  }

  lemma CreatorStays(env: Env, s: State, a: Action, preexisting: bool)
    requires env.Sound() && Inv(env, s, preexisting) && Legal(s, a)
    ensures OneCreator(Apply(env, s, a), preexisting)
  {
    var t := Apply(env, s, a);
    if s.files.archive.None? {
      assert forall k :: 0 <= k < |s.sealers| ==> !s.sealers[k].created;
      assert t.files.archive.Some? ==> t.sealers[a.i].created;
    } else {
      assert forall k :: 0 <= k < |s.sealers| ==> t.sealers[k].created == s.sealers[k].created;
    }
  }

  lemma {:induction false} RunKeepsInv(env: Env, s: State, actions: seq<Action>, preexisting: bool)
    requires env.Sound() && Inv(env, s, preexisting) && LegalRun(env, s, actions)
    ensures Inv(env, Run(env, s, actions), preexisting)
    decreases |actions|
  {
    if actions != [] {
      StepKeepsInv(env, s, actions[0], preexisting);
      RunKeepsInv(env, Apply(env, s, actions[0]), actions[1..], preexisting);
    }
  }

  // ---- what every interleaving gives ----

  /**
   * Any sealers, any interleaving, starting without an archive: as soon as one finished, exactly
   * one has created the archive; all that finished report the digest of that archive, which is the
   * one in the checksum file, and exactly the creator says it did not reuse one.
   */
  lemma RacingSealersAgree(env: Env, s: State, actions: seq<Action>)
    requires env.Sound() && Fresh(s) && s.files.archive.None? && LegalRun(env, s, actions)
    ensures var t := Run(env, s, actions);
            forall i :: 0 <= i < |t.sealers| && t.sealers[i].pc.Done? ==>
              && t.files.archive.Some?
              && t.files.sidecar == Some(env.digest(t.files.archive.value) + "  " + env.fileName + "\n")
              && t.sealers[i].pc.archiveSha256 == env.digest(t.files.archive.value)
              && t.sealers[i].pc.eventCount == |t.sealers[i].records|
              && t.sealers[i].pc.reused == !t.sealers[i].created
              && exists c :: 0 <= c < |t.sealers| && t.sealers[c].created
                   && forall j :: 0 <= j < |t.sealers| && t.sealers[j].created ==> j == c
  {
    RunKeepsInv(env, s, actions, false);
    var t := Run(env, s, actions);
    forall i | 0 <= i < |t.sealers| && t.sealers[i].pc.Done?
      ensures t.files.archive.Some?
      ensures exists c :: 0 <= c < |t.sealers| && t.sealers[c].created
                && forall j :: 0 <= j < |t.sealers| && t.sealers[j].created ==> j == c
    {
      assert Consistent(env, t.files, t.sealers[i]);
      ghost var c :| 0 <= c < |t.sealers| && t.sealers[c].created;
      assert forall j :: 0 <= j < |t.sealers| && t.sealers[j].created ==> j == c;
    }
  }

  /**
   * Two sealers that both finished, whatever records they read and whatever was there before, read
   * records that are alike one by one, so they report the same count; or a hash collision exists.
   */
  lemma FinishedSealersReadTheSame(h: Hash, w: Window, digest: Archive -> string, fileName: string, s: State,
                                   actions: seq<Action>, i: nat, j: nat)
    requires var env := EnvOf(h, w, digest, fileName);
             && Fresh(s) && LegalRun(env, s, actions)
             && var t := Run(env, s, actions);
                i < |t.sealers| && j < |t.sealers| && t.sealers[i].pc.Done? && t.sealers[j].pc.Done?
    ensures var t := Run(EnvOf(h, w, digest, fileName), s, actions);
            && SameArchive(h, t.sealers[i].records, t.sealers[j].records)
            && ((forall x, y :: !Collision(h, x, y)) ==> t.sealers[i].pc.eventCount == t.sealers[j].pc.eventCount)
  {
    var env := EnvOf(h, w, digest, fileName);
    EnvIsSound(h, w, digest, fileName);
    RunKeepsInv(env, s, actions, s.files.archive.Some?);
    var t := Run(env, s, actions);
    assert Consistent(env, t.files, t.sealers[i]) && Consistent(env, t.files, t.sealers[j]);
    AcceptedForBoth(h, w, t.files.archive.value.text, t.sealers[i].records, t.sealers[j].records);
  }

  // ---- sealers that read the same records ----

  // What is in the files was made for these records.
  ghost predicate MadeFor(env: Env, files: Files, records: seq<Json>) {
    && (files.archive.Some? ==> env.accepts(files.archive.value.text, records))
    && (files.sidecar.Some? ==> files.archive.Some? && files.sidecar.value == env.Checksum(files.archive.value))
  }

  ghost predicate Unanimous(env: Env, s: State, records: seq<Json>) {
    && MadeFor(env, s.files, records)
    && forall i :: 0 <= i < |s.sealers| ==>
         s.sealers[i].records == records && !s.sealers[i].pc.Failed? && Consistent(env, s.files, s.sealers[i])
  }

  lemma StepStaysUnanimous(env: Env, s: State, a: Action, records: seq<Json>)
    requires env.Sound() && Unanimous(env, s, records) && Legal(s, a) && a.Step?
    ensures Unanimous(env, Apply(env, s, a), records)
  {
    var t := Apply(env, s, a);
    StepIsConsistent(env, s.files, s.sealers[a.i], a.createdAt, a.iv);
    forall k | 0 <= k < |t.sealers| ensures Consistent(env, t.files, t.sealers[k]) {
      if k != a.i {
        MoreFilesStayConsistent(env, s.files, t.files, s.sealers[k]);
      }
    }
  }

  /**
   * Sealers that read the same records never refuse: without file errors no sealer fails in any
   * interleaving, starting from no files or from files made for these records.
   */
  lemma {:induction false} SameRecordsNeverConflict(env: Env, s: State, actions: seq<Action>, records: seq<Json>)
    requires env.Sound() && Unanimous(env, s, records) && LegalRun(env, s, actions)
    requires forall a :: a in actions ==> a.Step?
    ensures Unanimous(env, Run(env, s, actions), records)
    decreases |actions|
  {
    if actions != [] {
      StepStaysUnanimous(env, s, actions[0], records);
      SameRecordsNeverConflict(env, Apply(env, s, actions[0]), actions[1..], records);
    }
  }

  // ---- why a sealer fails ----

  lemma StepFailsForAReason(env: Env, files: Files, x: Sealer, createdAt: string, iv: nat)
    requires Consistent(env, files, x) && !Ended(x.pc)
    ensures Stepped(env, files, x, createdAt, iv).1.pc != Failed(FileError)
  {
  }

  lemma {:induction false} OnlyErrorsAreErrors(env: Env, s: State, actions: seq<Action>, preexisting: bool, i: nat)
    requires env.Sound() && Inv(env, s, preexisting) && LegalRun(env, s, actions) && i < |s.sealers|
    requires s.sealers[i].pc != Failed(FileError) && Error(i) !in actions
    ensures |Run(env, s, actions).sealers| == |s.sealers| && Run(env, s, actions).sealers[i].pc != Failed(FileError)
    decreases |actions|
  {
    if actions != [] {
      var a := actions[0];
      StepKeepsInv(env, s, a, preexisting);
      if a.Step? {
        assert Consistent(env, s.files, s.sealers[a.i]);
        StepFailsForAReason(env, s.files, s.sealers[a.i], a.createdAt, a.iv);
      }
      OnlyErrorsAreErrors(env, Apply(env, s, a), actions[1..], preexisting, i);
    }
  }

  /**
   * In every run a sealer refuses the archive only if it is not accepted for its records, reports a
   * checksum conflict only if the checksum file holds something else, and a file error only if one
   * of its own operations had one.
   */
  lemma FailuresHaveReasons(env: Env, s: State, actions: seq<Action>, i: nat)
    requires env.Sound() && Fresh(s) && LegalRun(env, s, actions)
    requires i < |s.sealers| && i < |Run(env, s, actions).sealers| && Run(env, s, actions).sealers[i].pc.Failed?
    ensures var t := Run(env, s, actions);
            match t.sealers[i].pc.why
            case Rejected => t.files.archive.Some? && !env.accepts(t.files.archive.value.text, t.sealers[i].records)
            case ChecksumConflict =>
              && t.files.archive.Some? && t.files.sidecar.Some?
              && t.files.sidecar.value != env.digest(t.files.archive.value) + "  " + env.fileName + "\n"
            case FileError => Error(i) in actions
  {
    RunKeepsInv(env, s, actions, s.files.archive.Some?);
    assert Consistent(env, Run(env, s, actions).files, Run(env, s, actions).sealers[i]);
    assert s.sealers[i] in s.sealers;
    if Error(i) !in actions {
      OnlyErrorsAreErrors(env, s, actions, s.files.archive.Some?, i);
    }
  }

  // ---- every sealer ends ----

  function Rank(pc: Pc): nat {
    match pc
    case ReadArchive => 6
    case LinkArchive(_) => 5
    case RereadArchive => 4
    case ReadSidecar(_) => 3
    case LinkSidecar(_) => 2
    case RereadSidecar(_) => 1
    case _ => 0
  }

  function Work(xs: seq<Sealer>): nat { if xs == [] then 0 else Rank(xs[0].pc) + Work(xs[1..]) }

  lemma {:induction false} WorkAt(xs: seq<Sealer>, i: nat, x: Sealer)
    requires i < |xs|
    ensures Work(xs[i := x]) == Work(xs) - Rank(xs[i].pc) + Rank(x.pc)
  {
    if i > 0 {
      WorkAt(xs[1..], i - 1, x);
      assert xs[i := x][1..] == xs[1..][i - 1 := x];
    } else {
      assert xs[i := x][1..] == xs[1..];
    }
  }

  lemma {:induction false} WorkIsBounded(xs: seq<Sealer>)
    ensures Work(xs) <= 6 * |xs|
  {
    if xs != [] {
      WorkIsBounded(xs[1..]);
    }
  }

  /** No run is longer than six steps a sealer. */
  lemma {:induction false} SealersEnd(env: Env, s: State, actions: seq<Action>)
    requires LegalRun(env, s, actions)
    ensures |actions| <= Work(s.sealers) <= 6 * |s.sealers|
    decreases |actions|
  {
    WorkIsBounded(s.sealers);
    if actions != [] {
      var a, t := actions[0], Apply(env, s, actions[0]);
      WorkAt(s.sealers, a.i, t.sealers[a.i]);
      SealersEnd(env, t, actions[1..]);
    }
  }

  // ---- sealing again ----

  // Sealers that found an archive, and did not accept it or have not looked yet.
  ghost predicate Barred(env: Env, s: State, archive: Archive) {
    && s.files.archive == Some(archive)
    && forall x :: x in s.sealers ==> (x.pc.ReadArchive? || x.pc.Failed?) && !env.accepts(archive.text, x.records)
  }

  /** Sealing a day again over records its archive is not accepted for throws and changes no file. */
  lemma {:induction false} ResealOverOthersThrows(env: Env, s: State, actions: seq<Action>, archive: Archive)
    requires Barred(env, s, archive) && LegalRun(env, s, actions)
    ensures Run(env, s, actions).files == s.files
    ensures forall x :: x in Run(env, s, actions).sealers ==> x.pc.ReadArchive? || x.pc.Failed?
    decreases |actions|
  {
    if actions != [] {
      var t := Apply(env, s, actions[0]);
      assert s.sealers[actions[0].i] in s.sealers;
      assert Barred(env, t, archive) by {
        forall x | x in t.sealers ensures (x.pc.ReadArchive? || x.pc.Failed?) && !env.accepts(archive.text, x.records) {
          if x !in s.sealers {
            assert x == t.sealers[actions[0].i];
          }
        }
      }
      ResealOverOthersThrows(env, t, actions[1..], archive);
    }
  }

  /** The archive of other records is not accepted, or a hash collision exists. */
  lemma OtherRecordsAreBarred(h: Hash, w: Window, text: string, sealed: seq<Json>, records: seq<Json>)
    requires Canon(sealed) && Canon(records) && AcceptsText(h, w, text, sealed) && !AllAlike(sealed, records)
    ensures !AcceptsText(h, w, text, records) || exists x, y :: Collision(h, x, y)
  {
    if AcceptsText(h, w, text, records) {
      AcceptedForBoth(h, w, text, sealed, records);
    }
  }

  /** Sealing again with an archive in place never creates one: whoever finishes says it reused it. */
  lemma ResealReuses(env: Env, s: State, actions: seq<Action>)
    requires env.Sound() && Fresh(s) && s.files.archive.Some? && LegalRun(env, s, actions)
    ensures var t := Run(env, s, actions);
            && t.files.archive == s.files.archive
            && forall x :: x in t.sealers && x.pc.Done? ==>
                 x.pc.reused && x.pc.archiveSha256 == env.digest(s.files.archive.value)
  {
    RunKeepsInv(env, s, actions, true);
    FilesAreWrittenOnce(env, s, actions);
    var t := Run(env, s, actions);
    forall i | 0 <= i < |t.sealers| && t.sealers[i].pc.Done?
      ensures t.sealers[i].pc.reused && t.sealers[i].pc.archiveSha256 == env.digest(s.files.archive.value)
    {
      assert Consistent(env, t.files, t.sealers[i]);
    }
  }
}
