/** How a bootstrap recovers the committed configuration from an image
    (crates/rafter/src/node/bootstrap/validate/configuration.rs), and when it cannot. */
module ConfigRecovery {
  import opened Prelude
  import opened Raft
  import opened Kernel
  import opened Durable
  import opened SnapshotInstall
  import opened CommittedConfig

  /** The identity that `expected` names, if it names one at `index`, is not the entry's. */
  function IdentityRefusal(expected: Option<Config>, index: nat, kind: Kind): Option<BootstrapError> {
    if expected.None? || expected.value.index != index then None
    else if !kind.Configuration? then Some(ConfigurationMissing(index))
    else if kind.id != expected.value.id then Some(ConfigurationIdMismatch(index))
    else None
  }

  /** Why the entry at the snapshot boundary is refused, or nothing. */
  function BoundaryRefusal(stored: Option<Config>, snap: Snapshot, entry: Entry): Option<BootstrapError> {
    var first := IdentityRefusal(stored, snap.index, entry.kind);
    if first.Some? then first else IdentityRefusal(snap.Captured(), snap.index, entry.kind)
  }

  /** Why the recorded configuration is refused, or nothing; `log` starts at the boundary. */
  function StoredRefusal(stored: Config, snap: Snapshot, log: Log, commit: nat): Option<BootstrapError> {
    var captured := snap.Captured();
    if stored.index > commit then Some(ConfigurationAheadOfCommit(stored.index, commit))
    else if stored.index > snap.index then
      if log.Has(stored.index) then IdentityRefusal(Some(stored), stored.index, log.At(stored.index).kind)
      else Some(ConfigurationMissing(stored.index))
    else if snap.declared.None? then Some(CompactedConfigurationUndeclared(stored.index))
    else if captured.Some? && stored.index > captured.value.index then Some(ConfigurationMissing(stored.index))
    else if captured.Some? && stored.index == captured.value.index && stored.id != captured.value.id then
      Some(ConfigurationIdMismatch(stored.index))
    else None
  }

  function RecoverConfiguration(stored: Option<Config>, snap: Snapshot, log: Log, commit: nat):
    Result<Option<Config>, BootstrapError>
  {
    var captured := snap.Captured();
    if captured.Some? && captured.value.index > snap.index then
      Err(ConfigurationAheadOfCommit(captured.value.index, snap.index))
    else if stored.Some? && StoredRefusal(stored.value, snap, log, commit).Some? then
      Err(StoredRefusal(stored.value, snap, log, commit).value)
    else Ok(Later(Later(stored, captured), NewestThrough(log, commit)))
  }

  /** What a bootstrap recovers from an image. */
  function Recovered(img: Image): Result<Option<Config>, BootstrapError> {
    RecoverConfiguration(img.hard.config, img.snap, img.log.DropThrough(img.snap.index), img.Committed())
  }

  /** The boundary entry, if the log has one, carries the configuration it should. */
  predicate BoundaryAdmitted(stored: Option<Config>, log: Log, snap: Snapshot) {
    log.Has(snap.index) ==> BoundaryRefusal(stored, snap, log.At(snap.index)).None?
  }

  /** A bootstrap recovers a configuration from the image. */
  predicate ConfigurationAdmitted(img: Image) {
    BoundaryAdmitted(img.hard.config, img.log, img.snap) && Recovered(img).Ok?
  }

  /** The configuration is in the log where it says it is. */
  predicate InLog(log: Log, c: Config) { log.Has(c.index) && log.At(c.index).kind == Configuration(c.id) }

  /** Of any image, sound or not: a configuration is recovered exactly if nothing contradicts
      the record and the snapshot.  What either names at a boundary entry that is still there
      is that entry; the snapshot names nothing beyond its boundary; the record is committed,
      and is in the log, or is covered by a snapshot that declares something no older, and the
      same if it is no newer. */
  lemma AdmittedExactly(img: Image)
    ensures
      var stored, captured, boundary := img.hard.config, img.snap.Captured(), img.snap.index;
      ConfigurationAdmitted(img) <==>
        && (forall c :: (stored == Some(c) || captured == Some(c)) && c.index == boundary && img.log.Has(boundary) ==>
              InLog(img.log, c))
        && (captured.Some? ==> captured.value.index <= boundary)
        && (stored.Some? ==>
              && stored.value.index <= img.Committed()
              && (boundary < stored.value.index ==> InLog(img.log, stored.value))
              && (stored.value.index <= boundary ==>
                    && img.snap.declared.Some?
                    && (captured.Some? ==> stored.value.index <= captured.value.index)
                    && (captured.Some? && stored.value.index == captured.value.index ==> stored == captured)))
  {
    var stored, captured, boundary := img.hard.config, img.snap.Captured(), img.snap.index;
    var log := img.log.DropThrough(boundary);
    if stored.Some? && boundary < stored.value.index {
      assert log.Has(stored.value.index) <==> img.log.Has(stored.value.index);
    }
    if img.log.Has(boundary) {
      var kind := img.log.At(boundary).kind;
      assert IdentityRefusal(stored, boundary, kind).None? <==>
        (stored.Some? && stored.value.index == boundary ==> InLog(img.log, stored.value));
      assert IdentityRefusal(captured, boundary, kind).None? <==>
        (captured.Some? && captured.value.index == boundary ==> InLog(img.log, captured.value));
    }
  }

  // ---------------------------------------------------------------------------
  // When it does

  /** The recorded configuration is on the committed history. */
  ghost predicate StoredOk(L: Lineage, img: Image) {
    img.hard.config.Some? ==> OnHistory(L, img.CommitPoint(), img.hard.config.value)
  }

  /** The log above the boundary, as a continuation of the snapshot. */
  lemma EffectiveLog(L: Lineage, img: Image)
    requires ImageInv(L, img)
    ensures
      var log := img.log.DropThrough(img.snap.index);
      && log.base == img.snap.index && img.Committed() <= log.Last()
      && Chained(L, log) && Grounded(L, log, img.snap.term)
      && (img.snap.index < img.Committed() ==> log.At(img.Committed()).term == img.CommitPoint().term)
  {
    ChainedDrop(L, img.log, img.snap.index);
  }

  /** A recorded configuration above the boundary is in the log. */
  lemma StoredInLog(L: Lineage, img: Image)
    requires ImageInv(L, img) && StoredOk(L, img) && img.hard.config.Some?
    requires img.snap.index < img.hard.config.value.index
    ensures
      var c, log := img.hard.config.value, img.log.DropThrough(img.snap.index);
      log.Has(c.index) && log.At(c.index).kind == Configuration(c.id)
  {
    CommittedEntry(L, img, img.hard.config.value.index);
  }

  /** A configuration below the boundary is what the boundary's history has there. */
  lemma StoredBelow(L: Lineage, img: Image)
    requires ImageInv(L, img) && StoredOk(L, img) && img.hard.config.Some?
    requires img.hard.config.value.index <= img.snap.index
    ensures OnHistory(L, img.snap.Boundary(), img.hard.config.value)
  {
    BoundaryOnHistory(L, img);
    OnBoth(L, img.snap.Boundary(), img.CommitPoint(), img.hard.config.value);
  }

  lemma BoundaryKind(L: Lineage, img: Image)
    requires ImageInv(L, img) && img.log.Has(img.snap.index)
    ensures img.log.At(img.snap.index).kind == L.kind(img.snap.index, img.snap.term)
  {
    assert Linked(L, img.log, img.snap.index);
  }

  lemma AtBoundary(L: Lineage, s: Snapshot, c: Config)
    requires OnHistory(L, s.Boundary(), c) && c.index == s.index
    ensures L.kind(s.index, s.term) == Configuration(c.id)
  {}

  lemma BoundaryAccepted(L: Lineage, img: Image)
    requires ImageInv(L, img) && StoredOk(L, img) && CapturedOk(L, img.snap)
    ensures BoundaryAdmitted(img.hard.config, img.log, img.snap)
  {
    if img.log.Has(img.snap.index) {
      BoundaryKind(L, img);
      var stored, captured := img.hard.config, img.snap.Captured();
      if stored.Some? && stored.value.index == img.snap.index {
        StoredBelow(L, img);
        AtBoundary(L, img.snap, stored.value);
      }
      if captured.Some? && captured.value.index == img.snap.index {
        LatestOnHistory(L, img.snap.Boundary());
        AtBoundary(L, img.snap, captured.value);
      }
    }
  }

  /** A sound image whose snapshot names the truth or nothing is refused for its configuration
      if and only if it has compacted the recorded one away undeclared. */
  lemma RecoveryExact(L: Lineage, img: Image)
    requires ImageInv(L, img) && StoredOk(L, img) && CapturedOk(L, img.snap)
    ensures ConfigurationAdmitted(img) <==>
      (img.hard.config.Some? && img.hard.config.value.index <= img.snap.index ==> img.snap.declared.Some?)
  {
    var stored, captured := img.hard.config, img.snap.Captured();
    BoundaryAccepted(L, img);
    LatestOnHistory(L, img.snap.Boundary());
    if stored.Some? {
      if img.snap.index < stored.value.index {
        StoredInLog(L, img);
      } else {
        StoredBelow(L, img);
        NothingLater(L, img.snap.Boundary(), stored.value);
      }
    }
  }

  /** With an honest snapshot it recovers the configuration that the history committed. */
  lemma RecoversLatest(L: Lineage, img: Image)
    requires ImageInv(L, img) && StoredOk(L, img) && Honest(L, img.snap)
    ensures ConfigurationAdmitted(img) && Recovered(img) == Ok(LatestAt(L, img.CommitPoint()))
  {
    var stored, log, c := img.hard.config, img.log.DropThrough(img.snap.index), img.Committed();
    if stored.Some? && img.snap == NO_SNAPSHOT { StoredAboveNothing(L, img); }
    RecoveryExact(L, img);
    EffectiveLog(L, img);
    LatestInLog(L, log, img.snap.term, c);
    NewestAbove(log, c);
    HonestCaptures(L, img.snap);
    LatestOnHistory(L, img.snap.Boundary());
    if stored.Some? { NothingLater(L, img.CommitPoint(), stored.value); }
  }

  lemma StoredAboveNothing(L: Lineage, img: Image)
    requires StoredOk(L, img) && img.hard.config.Some? && img.snap == NO_SNAPSHOT
    ensures img.snap.index < img.hard.config.value.index
  {}

  /** If its snapshot covers the record, it recovers the truth or nothing, which the snapshot
      covers again. */
  lemma RecoversTruth(L: Lineage, img: Image)
    requires ImageInv(L, img) && StoredOk(L, img) && CapturedOk(L, img.snap) && Remembers(img.snap, img.hard.config)
    ensures ConfigurationAdmitted(img) && Remembers(img.snap, Recovered(img).value)
    ensures Recovered(img).value.Some? ==> Recovered(img).value == LatestAt(L, img.CommitPoint())
  {
    var stored, log, c := img.hard.config, img.log.DropThrough(img.snap.index), img.Committed();
    RecoveryExact(L, img);
    EffectiveLog(L, img);
    LatestInLog(L, log, img.snap.term, c);
    NewestAbove(log, c);
    LatestOnHistory(L, img.snap.Boundary());
    if stored.Some? {
      NothingLater(L, img.CommitPoint(), stored.value);
      if img.snap.index < stored.value.index {
        StoredInLog(L, img);
        NewestAtLeast(log, c, stored.value.index);
      }
    }
  }
}
