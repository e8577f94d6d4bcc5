/** Every run of release commands keeps a log: the directory is exactly what the log says, whole or cut short. */
module PromotionTheorems {
  import opened Text
  import opened Promotion

  // ---------- the log ----------

  /** One release: what was served from its installation on, and its manifest. */
  datatype Entry = Entry(model: string, allowlist: string, manifest: Manifest)

  function AsRelease(e: Entry): Release {
    Release(Some(e.model), Some(e.allowlist), Says(e.manifest))
  }

  predicate IsAccepted(op: Op, digest: string -> string) {
    op.Promote? && op.model.Some? && op.allowlist.Some? && op.report.formatOk && op.report.verdict == "PASS" &&
    op.report.modelHash == digest(op.model.value)
  }

  /** A promotion adds the candidate; a rollback adds the last release but one again. */
  function LogNext(log: seq<Entry>, op: Op, digest: string -> string): (next: seq<Entry>)
    ensures log <= next
  {
    if !op.confirm then log
    else if IsAccepted(op, digest) then
      log + [Entry(op.model.value, op.allowlist.value,
                   Manifest(|log| + 1, digest(op.model.value), digest(op.allowlist.value),
                            Some(digest(op.report.text)), Promoted))]
    else if op.Rollback? && |log| >= 2 then
      var e := log[|log| - 2];
      log + [Entry(e.model, e.allowlist,
                   Manifest(|log| + 1, digest(e.model), digest(e.allowlist), None, RolledBack(|log|, |log| - 1)))]
    else log
  }

  function LogOf(ops: seq<Op>, digest: string -> string): seq<Entry> {
    if ops == [] then [] else LogNext(LogOf(ops[..|ops| - 1], digest), ops[|ops| - 1], digest)
  }

  ghost function DirOf(start: Dir, ops: seq<Op>, digest: string -> string): Dir {
    if ops == [] then start else Perform(DirOf(start, ops[..|ops| - 1], digest), ops[|ops| - 1], digest)
  }

  /** The release of version `k` is archived under `k`, and the last one is served. */
  ghost predicate Follows(d: Dir, log: seq<Entry>) {
    if log == [] then d.current.manifest.NoManifest? && d.versions == map[]
    else
      && d.current == AsRelease(log[|log| - 1])
      && (forall v :: v in d.versions <==> 1 <= v < |log|)
      && (forall v :: 1 <= v < |log| ==> d.versions[v] == AsRelease(log[v - 1]))
  }

  /** Versions count up from one, and each manifest names the hashes of what it was installed with. */
  ghost predicate IsTrail(log: seq<Entry>, digest: string -> string) {
    forall k :: 0 <= k < |log| ==>
      && log[k].manifest.version == k + 1
      && log[k].manifest.modelHash == digest(log[k].model)
      && log[k].manifest.allowlistHash == digest(log[k].allowlist)
  }

  lemma {:induction false} LogIsTrail(ops: seq<Op>, digest: string -> string)
    ensures IsTrail(LogOf(ops, digest), digest)
  {
    if ops != [] { LogIsTrail(ops[..|ops| - 1], digest); }
  }

  // ---------- one command ----------

  /** Archiving the served release under its own version. */
  lemma ArchivedIs(d: Dir, v: nat, e: Entry)
    requires d.current == AsRelease(e)
    ensures ApplyAll(d, ArchiveWrites(v)) == d.(versions := d.versions[v := AsRelease(e)])
  {
    FourWrites(d, v);
    var old_ := Archived(d, v);
    var a := Apply(d, MakeVersion(v));
    var b := Apply(a, ArchiveModel(v));
    var c := Apply(b, ArchiveAllowlist(v));
    var with_ := old_.(model := Some(e.model));
    var both := with_.(allowlist := Some(e.allowlist));
    assert b == d.(versions := d.versions[v := with_]) by { Overwrite(d.versions, v, old_, with_); }
    assert c == d.(versions := d.versions[v := both]) by { Overwrite(d.versions, v, with_, both); }
    Overwrite(d.versions, v, both, AsRelease(e));
  }

  lemma Overwrite(m: map<nat, Release>, v: nat, a: Release, b: Release)
    ensures m[v := a][v := b] == m[v := b]
  {
  }

  lemma InstalledFollows(d: Dir, log: seq<Entry>, e: Entry)
    requires log != [] && Follows(d, log)
    ensures Follows(ApplyAll(d, ArchiveWrites(|log|) + InstallWrites(e.model, e.allowlist, e.manifest)), log + [e])
  {
    ApplyAllConcat(d, ArchiveWrites(|log|), InstallWrites(e.model, e.allowlist, e.manifest));
    ArchivedIs(d, |log|, log[|log| - 1]);
    ThreeWrites(ApplyAll(d, ArchiveWrites(|log|)), e.model, e.allowlist, e.manifest);
  }

  lemma FirstInstalled(d: Dir, e: Entry)
    requires Follows(d, [])
    ensures Follows(ApplyAll(d, [] + InstallWrites(e.model, e.allowlist, e.manifest)), [e])
  {
    ThreeWrites(d, e.model, e.allowlist, e.manifest);
    assert [] + InstallWrites(e.model, e.allowlist, e.manifest) == InstallWrites(e.model, e.allowlist, e.manifest);
  }

  lemma VersionsOf(d: Dir, log: seq<Entry>)
    requires |log| >= 2 && Follows(d, log)
    ensures d.versions.Keys != {} && MaxOf(d.versions.Keys) == |log| - 1
    ensures Below(d.versions, |log|) != {} && MaxOf(Below(d.versions, |log|)) == |log| - 1
    ensures MaxOf(d.versions.Keys + {|log|}) == |log|
  {
    assert |log| - 1 in d.versions && |log| - 1 in Below(d.versions, |log|);
    LargerOf(d.versions.Keys, |log|);
  }

  lemma NextIs(d: Dir, log: seq<Entry>, digest: string -> string)
    requires Follows(d, log) && IsTrail(log, digest)
    ensures NextVersion(d) == |log| + 1
  {
    if |log| >= 2 { VersionsOf(d, log); }
  }

  lemma PromoteFollows(d: Dir, log: seq<Entry>, op: Op, digest: string -> string)
    requires op.Promote? && Follows(d, log) && IsTrail(log, digest)
    ensures Follows(Perform(d, op, digest), LogNext(log, op, digest))
  {
    NextIs(d, log, digest);
    if op.confirm && IsAccepted(op, digest) {
      var next := LogNext(log, op, digest);
      if log == [] { FirstInstalled(d, next[0]); } else { InstalledFollows(d, log, next[|log|]); }
    }
  }

  lemma OneVersionNothingEarlier(d: Dir, log: seq<Entry>)
    requires |log| == 1 && Follows(d, log)
    ensures Below(d.versions, 1) == {}
  {
  }

  lemma RollbackFollows(d: Dir, log: seq<Entry>, op: Op, digest: string -> string)
    requires op.Rollback? && Follows(d, log) && IsTrail(log, digest)
    ensures Follows(Perform(d, op, digest), LogNext(log, op, digest))
  {
    if |log| == 1 { OneVersionNothingEarlier(d, log); }
    if |log| >= 2 && op.confirm {
      var e := LogNext(log, op, digest)[|log|];
      AgainPlans(d, log, e, op, digest);
      InstalledFollows(d, log, e);
    } else {
      NothingPlanned(d, op, digest);
    }
  }

  lemma NothingPlanned(d: Dir, op: Op, digest: string -> string)
    requires op.Rollback?
    requires !op.confirm || d.current.manifest.NoManifest? ||
             (d.current.manifest.Says? && Below(d.versions, d.current.manifest.manifest.version) == {})
    ensures Plan(d, op, digest).1 == []
  {
  }

  /** From a directory without a manifest or archived releases, after any commands the directory is exactly
      what the log says. */
  lemma {:induction false} EveryRunFollows(start: Dir, ops: seq<Op>, digest: string -> string)
    requires Follows(start, [])
    ensures Follows(DirOf(start, ops, digest), LogOf(ops, digest)) && IsTrail(LogOf(ops, digest), digest)
  {
    LogIsTrail(ops, digest);
    if ops != [] {
      var front, op := ops[..|ops| - 1], ops[|ops| - 1];
      EveryRunFollows(start, front, digest);
      var d, log := DirOf(start, front, digest), LogOf(front, digest);
      if op.Promote? { PromoteFollows(d, log, op, digest); } else { RollbackFollows(d, log, op, digest); }
    }
  }

  // ---------- what follows for whole runs ----------

  lemma {:induction false} LogGrows(ops: seq<Op>, more: seq<Op>, digest: string -> string)
    ensures LogOf(ops, digest) <= LogOf(ops + more, digest)
  {
    if more == [] {
      assert ops + more == ops;
    } else {
      assert (ops + more)[..|ops + more| - 1] == ops + more[..|more| - 1];
      LogGrows(ops, more[..|more| - 1], digest);
    }
  }

  /** A later version is served, and this one is archived under its own. */
  ghost predicate Superseded(r: Release, d: Dir)
    requires r.manifest.Says?
  {
    var v := r.manifest.manifest.version;
    d.current.manifest.Says? && d.current.manifest.manifest.version > v && v in d.versions && d.versions[v] == r
  }

  /** The served version never goes back, and an archived release is never rewritten. */
  lemma ArchiveIsForever(start: Dir, ops: seq<Op>, more: seq<Op>, digest: string -> string)
    requires Follows(start, [])
    ensures var d, later := DirOf(start, ops, digest), DirOf(start, ops + more, digest);
      && (forall v :: v in d.versions ==> v in later.versions && later.versions[v] == d.versions[v])
      && (d.current.manifest.Says? ==> later.current == d.current || Superseded(d.current, later))
  {
    EveryRunFollows(start, ops, digest);
    EveryRunFollows(start, ops + more, digest);
    LogGrows(ops, more, digest);
    LaterFollows(DirOf(start, ops, digest), LogOf(ops, digest), DirOf(start, ops + more, digest),
                 LogOf(ops + more, digest), digest);
  }

  lemma LaterFollows(d: Dir, log: seq<Entry>, later: Dir, next: seq<Entry>, digest: string -> string)
    requires Follows(d, log) && Follows(later, next) && log <= next && IsTrail(log, digest) && IsTrail(next, digest)
    ensures forall v :: v in d.versions ==> v in later.versions && later.versions[v] == d.versions[v]
    ensures d.current.manifest.Says? ==> later.current == d.current || Superseded(d.current, later)
  {
    assert forall k :: 0 <= k < |log| ==> log[k] == next[k];
  }

  /** What the application loads: the served files, when both hashes are the manifest's. */
  function Loads(r: Release, digest: string -> string): Option<(string, string)> {
    if r.manifest.Says? && r.model.Some? && r.allowlist.Some? &&
       digest(r.model.value) == r.manifest.manifest.modelHash &&
       digest(r.allowlist.value) == r.manifest.manifest.allowlistHash
    then Some((r.model.value, r.allowlist.value))
    else None
  }

  function Served(e: Entry): (string, string) {
    (e.model, e.allowlist)
  }

  /** After every completed command the served release loads, and so does every archived one. */
  lemma EveryReleaseLoads(start: Dir, ops: seq<Op>, digest: string -> string)
    requires Follows(start, []) && LogOf(ops, digest) != []
    ensures var d, log := DirOf(start, ops, digest), LogOf(ops, digest);
      && Loads(d.current, digest) == Some(Served(log[|log| - 1]))
      && forall k :: 0 <= k < |log| - 1 ==>
                       k + 1 in d.versions && Loads(d.versions[k + 1], digest) == Some(Served(log[k]))
  {
    EveryRunFollows(start, ops, digest);
    FollowingLoads(DirOf(start, ops, digest), LogOf(ops, digest), digest);
  }

  lemma EntryLoads(log: seq<Entry>, k: nat, digest: string -> string)
    requires IsTrail(log, digest) && k < |log|
    ensures Loads(AsRelease(log[k]), digest) == Some(Served(log[k]))
  {
  }

  lemma FollowingLoads(d: Dir, log: seq<Entry>, digest: string -> string)
    requires Follows(d, log) && IsTrail(log, digest) && log != []
    ensures Loads(d.current, digest) == Some(Served(log[|log| - 1]))
    ensures forall k :: 0 <= k < |log| - 1 ==>
                          k + 1 in d.versions && Loads(d.versions[k + 1], digest) == Some(Served(log[k]))
  {
    EntryLoads(log, |log| - 1, digest);
    forall k | 0 <= k < |log| - 1
      ensures k + 1 in d.versions && Loads(d.versions[k + 1], digest) == Some(Served(log[k]))
    {
      assert d.versions[k + 1] == AsRelease(log[k]);
      EntryLoads(log, k, digest);
    }
  }

  function Rollbacks(n: nat): seq<Op> {
    if n == 0 then [] else Rollbacks(n - 1) + [Rollback(true)]
  }

  lemma RollbackStep(log: seq<Entry>, digest: string -> string)
    requires |log| >= 2
    ensures var next := LogNext(log, Rollback(true), digest);
      |next| == |log| + 1 && log <= next && Served(next[|log|]) == Served(log[|log| - 2])
  {
  }

  function Rolled(log: seq<Entry>, n: nat, digest: string -> string): seq<Entry> {
    if n == 0 then log else LogNext(Rolled(log, n - 1, digest), Rollback(true), digest)
  }

  lemma {:induction false} RollbacksRoll(ops: seq<Op>, n: nat, digest: string -> string)
    ensures LogOf(ops + Rollbacks(n), digest) == Rolled(LogOf(ops, digest), n, digest)
  {
    var all := ops + Rollbacks(n);
    if n == 0 {
      assert all == ops;
    } else {
      RollbacksRoll(ops, n - 1, digest);
      assert all[..|all| - 1] == ops + Rollbacks(n - 1) && all[|all| - 1] == Rollback(true);
    }
  }

  /** The last two releases, in one order or the other. */
  ghost predicate EndsLike(after: seq<Entry>, log: seq<Entry>, swapped: bool) {
    && |after| >= 2 && |log| >= 2
    && Served(after[|after| - 1]) == Served(log[|log| - if swapped then 2 else 1])
    && Served(after[|after| - 2]) == Served(log[|log| - if swapped then 1 else 2])
  }

  lemma StepSwaps(after: seq<Entry>, log: seq<Entry>, swapped: bool, digest: string -> string)
    requires EndsLike(after, log, swapped)
    ensures EndsLike(LogNext(after, Rollback(true), digest), log, !swapped)
  {
    RollbackStep(after, digest);
    assert LogNext(after, Rollback(true), digest)[|after| - 1] == after[|after| - 1];
  }

  /** Rolling back again and again alternates between the last two releases: one rollback undoes the last
      promotion, two restore what was served, and none reaches further back. */
  lemma {:induction false} RollbacksAlternate(log: seq<Entry>, n: nat, digest: string -> string)
    requires |log| >= 2
    ensures EndsLike(Rolled(log, n, digest), log, n % 2 == 1)
  {
    if n > 0 {
      var before, swapped := Rolled(log, n - 1, digest), (n - 1) % 2 == 1;
      RollbacksAlternate(log, n - 1, digest);
      StepSwaps(before, log, swapped, digest);
      assert Rolled(log, n, digest) == LogNext(before, Rollback(true), digest) && (n % 2 == 1) == !swapped;
    }
  }

  /** The same files served as before, or those of the release archived last. */
  ghost predicate ServesLike(after: Dir, d: Dir, swapped: bool) {
    && d.current.manifest.Says? && d.current.manifest.manifest.version > 0
    && d.current.manifest.manifest.version - 1 in d.versions
    && var from := if swapped then d.versions[d.current.manifest.manifest.version - 1] else d.current;
       after.current.model == from.model && after.current.allowlist == from.allowlist
  }

  lemma EndsServe(d: Dir, log: seq<Entry>, after: Dir, rolled: seq<Entry>, swapped: bool, digest: string -> string)
    requires Follows(d, log) && IsTrail(log, digest) && Follows(after, rolled) && EndsLike(rolled, log, swapped)
    ensures ServesLike(after, d, swapped)
  {
    var last := log[|log| - 1];
    assert last.manifest.version == |log|;
    assert d.versions[|log| - 1] == AsRelease(log[|log| - 2]);
    assert after.current == AsRelease(rolled[|rolled| - 1]);
  }

  /** The files that `n` rollbacks in a row leave served. */
  lemma RollbacksServe(start: Dir, ops: seq<Op>, n: nat, digest: string -> string)
    requires Follows(start, []) && |LogOf(ops, digest)| >= 2
    ensures ServesLike(DirOf(start, ops + Rollbacks(n), digest), DirOf(start, ops, digest), n % 2 == 1)
  {
    EveryRunFollows(start, ops, digest);
    EveryRunFollows(start, ops + Rollbacks(n), digest);
    RollbacksRoll(ops, n, digest);
    var log := LogOf(ops, digest);
    RollbacksAlternate(log, n, digest);
    EndsServe(DirOf(start, ops, digest), log, DirOf(start, ops + Rollbacks(n), digest), Rolled(log, n, digest),
              n % 2 == 1, digest);
  }

  // ---------- commands cut short ----------

  /** A write cut short leaves some other content in the file it was writing. */
  function CutShort(d: Dir, w: Write, junk: string): Dir {
    match w
    case MakeVersion(v) => d
    case ArchiveModel(v) => d.(versions := d.versions[v := Archived(d, v).(model := Some(junk))])
    case ArchiveAllowlist(v) => d.(versions := d.versions[v := Archived(d, v).(allowlist := Some(junk))])
    case ArchiveManifest(v) => d.(versions := d.versions[v := Archived(d, v).(manifest := Torn)])
    case PutModel(_) => d.(current := d.current.(model := Some(junk)))
    case PutAllowlist(_) => d.(current := d.current.(allowlist := Some(junk)))
    case PutManifest(_) => d.(current := d.current.(manifest := Torn))
  }

  predicate IsArchiving(w: Write) {
    w.MakeVersion? || w.ArchiveModel? || w.ArchiveAllowlist? || w.ArchiveManifest?
  }

  lemma {:induction false} ArchivingServesTheSame(d: Dir, ws: seq<Write>)
    requires forall k :: 0 <= k < |ws| ==> IsArchiving(ws[k])
    ensures ApplyAll(d, ws).current == d.current
  {
    if ws != [] { ArchivingServesTheSame(d, ws[..|ws| - 1]); }
  }

  /** The first `k` writes, then perhaps part of the next. */
  function Interrupted(d: Dir, ws: seq<Write>, k: nat, cut: bool, junk: string): Dir
    requires k < |ws|
  {
    var part := ApplyAll(d, ws[..k]);
    if cut then CutShort(part, ws[k], junk) else part
  }

  lemma InterruptedArchiving(d: Dir, v: nat, more: seq<Write>, k: nat, cut: bool, junk: string)
    requires k < 4
    ensures Interrupted(d, ArchiveWrites(v) + more, k, cut, junk).current == d.current
  {
    var ws := ArchiveWrites(v) + more;
    assert ws[..k] == ArchiveWrites(v)[..k];
    assert IsArchiving(ws[k]);
    ArchivingServesTheSame(d, ArchiveWrites(v)[..k]);
  }

  /** No other text has the digest of a served file. */
  ghost predicate IsDistinguished(r: Release, digest: string -> string) {
    && (r.model.Some? ==> forall t :: digest(t) == digest(r.model.value) ==> t == r.model.value)
    && (r.allowlist.Some? ==> forall t :: digest(t) == digest(r.allowlist.value) ==> t == r.allowlist.value)
  }

  lemma PartInstalled(d: Dir, e: Entry, k: nat)
    requires k < 3
    ensures ApplyAll(d, InstallWrites(e.model, e.allowlist, e.manifest)[..k]) ==
      d.(current := Release(if k >= 1 then Some(e.model) else d.current.model,
                            if k >= 2 then Some(e.allowlist) else d.current.allowlist, d.current.manifest))
  {
    var ws := InstallWrites(e.model, e.allowlist, e.manifest);
    assert ws[..0] == [] && ws[..1] == [] + [PutModel(e.model)] && ws[..2] == ws[..1] + [PutAllowlist(e.allowlist)];
    assert ApplyAll(d, []) == d;
    AllOf(d, [], PutModel(e.model));
    AllOf(d, ws[..1], PutAllowlist(e.allowlist));
  }

  lemma InterruptedInstalling(d: Dir, e: Entry, k: nat, cut: bool, junk: string, digest: string -> string)
    requires k < 3 && IsDistinguished(d.current, digest)
    requires d.current.manifest.Says? ==> Loads(d.current, digest).Some?
    ensures Loads(Interrupted(d, InstallWrites(e.model, e.allowlist, e.manifest), k, cut, junk).current, digest)
            in {None, Loads(d.current, digest)}
  {
    PartInstalled(d, e, k);
  }

  lemma InterruptedAfter(d: Dir, a: seq<Write>, b: seq<Write>, k: nat, cut: bool, junk: string)
    requires |a| <= k < |a| + |b|
    ensures Interrupted(d, a + b, k, cut, junk) == Interrupted(ApplyAll(d, a), b, k - |a|, cut, junk)
  {
    assert (a + b)[..k] == a + b[..k - |a|];
    ApplyAllConcat(d, a, b[..k - |a|]);
  }

  lemma ArchivedServesTheSame(d: Dir, v: nat)
    ensures ApplyAll(d, ArchiveWrites(v)).current == d.current
  {
    ArchivingServesTheSame(d, ArchiveWrites(v));
  }

  /** A command stopped anywhere serves the old release or nothing: what the application loads, if
      anything, is what it loaded before. */
  lemma InterruptedServesOld(d: Dir, op: Op, k: nat, cut: bool, junk: string, digest: string -> string)
    requires k < |Plan(d, op, digest).1| && IsDistinguished(d.current, digest)
    requires d.current.manifest.Says? ==> Loads(d.current, digest).Some?
    ensures Loads(Interrupted(d, Plan(d, op, digest).1, k, cut, junk).current, digest) in
            {None, Loads(d.current, digest)}
  {
    var e, archived := PlanParts(d, op, digest);
    var install := InstallWrites(e.model, e.allowlist, e.manifest);
    if !archived {
      assert [] + install == install;
      InterruptedInstalling(d, e, k, cut, junk, digest);
    } else {
      var v := d.current.manifest.manifest.version;
      if k < 4 {
        InterruptedArchiving(d, v, install, k, cut, junk);
      } else {
        InterruptedAfter(d, ArchiveWrites(v), install, k, cut, junk);
        ArchivedServesTheSame(d, v);
        InterruptedInstalling(ApplyAll(d, ArchiveWrites(v)), e, k - 4, cut, junk, digest);
      }
    }
  }

  /** Every command that writes archives the served release, when there is one, and installs another. */
  lemma PlanParts(d: Dir, op: Op, digest: string -> string) returns (e: Entry, archived: bool)
    requires Plan(d, op, digest).1 != []
    ensures archived <==> d.current.manifest.Says?
    ensures Plan(d, op, digest).1 ==
      (if archived then ArchiveWrites(d.current.manifest.manifest.version) else []) +
      InstallWrites(e.model, e.allowlist, e.manifest)
  {
    archived := d.current.manifest.Says?;
    var ws := Plan(d, op, digest).1;
    var install := if archived then ws[4..] else ws;
    e := Entry(install[0].text, install[1].text, install[2].manifest);
    if !archived { assert [] + ws == ws; }
  }

  /** A manifest cut short stops every later command: none writes anything. */
  lemma TornManifestStopsAll(d: Dir, op: Op, digest: string -> string)
    requires d.current.manifest.Torn?
    ensures Plan(d, op, digest).0.Refused? && Perform(d, op, digest) == d
  {
  }

  // ---------- doing it again ----------

  /** As the log says, but for what an unfinished archive left under the served version. */
  ghost predicate AlmostFollows(d: Dir, log: seq<Entry>) {
    && log != [] && d.current == AsRelease(log[|log| - 1])
    && (forall v :: v in d.versions ==> 1 <= v <= |log|)
    && (forall v :: 1 <= v < |log| ==> v in d.versions && d.versions[v] == AsRelease(log[v - 1]))
  }

  lemma {:induction false} PartArchived(d: Dir, log: seq<Entry>, ws: seq<Write>)
    requires AlmostFollows(d, log) && forall k :: 0 <= k < |ws| ==> IsArchiving(ws[k]) && ws[k].version == |log|
    ensures AlmostFollows(ApplyAll(d, ws), log)
  {
    if ws != [] { PartArchived(d, log, ws[..|ws| - 1]); }
  }

  /** The command adds a release to the log: an accepted promotion, or a rollback with a release to go back to. */
  predicate Installs(op: Op, log: seq<Entry>, digest: string -> string) {
    op.confirm && (IsAccepted(op, digest) || (op.Rollback? && |log| >= 2))
  }

  lemma AlmostVersions(d: Dir, log: seq<Entry>)
    requires AlmostFollows(d, log) && log[|log| - 1].manifest.version == |log|
    ensures NextVersion(d) == |log| + 1
    ensures |log| >= 2 ==> Below(d.versions, |log|) != {} && MaxOf(Below(d.versions, |log|)) == |log| - 1
    ensures MaxOf(d.versions.Keys + {|log|}) == |log|
  {
    if |log| >= 2 { assert |log| - 1 in Below(d.versions, |log|); }
  }

  lemma PromotionPlans(d: Dir, log: seq<Entry>, e: Entry, op: Op, digest: string -> string)
    requires AlmostFollows(d, log) && NextVersion(d) == |log| + 1 && log[|log| - 1].manifest.version == |log|
    requires op.confirm && IsAccepted(op, digest) && e == LogNext(log, op, digest)[|log|]
    ensures Plan(d, op, digest).1 == ArchiveWrites(|log|) + InstallWrites(e.model, e.allowlist, e.manifest)
  {
  }

  lemma RollbackPlan(d: Dir, n: nat, before: Entry, m: Manifest, op: Op, digest: string -> string)
    requires op.confirm && op.Rollback? && d.current.manifest.Says? && d.current.manifest.manifest.version == n
    requires Below(d.versions, n) != {} && MaxOf(Below(d.versions, n)) == n - 1 && n >= 1
    requires d.versions[n - 1] == AsRelease(before) && MaxOf(d.versions.Keys + {n}) == n
    requires m == Manifest(n + 1, digest(before.model), digest(before.allowlist), None, RolledBack(n, n - 1))
    ensures Plan(d, op, digest).1 == ArchiveWrites(n) + InstallWrites(before.model, before.allowlist, m)
  {
  }

  lemma RollbackPlans(d: Dir, log: seq<Entry>, e: Entry, op: Op, digest: string -> string)
    requires AlmostFollows(d, log) && |log| >= 2 && log[|log| - 1].manifest.version == |log|
    requires Below(d.versions, |log|) != {} && MaxOf(Below(d.versions, |log|)) == |log| - 1
    requires MaxOf(d.versions.Keys + {|log|}) == |log|
    requires op.confirm && op.Rollback? && e == LogNext(log, op, digest)[|log|]
    ensures Plan(d, op, digest).1 == ArchiveWrites(|log|) + InstallWrites(e.model, e.allowlist, e.manifest)
  {
    RollbackPlan(d, |log|, log[|log| - 2], e.manifest, op, digest);
  }

  /** What a command that installs writes, archiving whatever is served under the version of its manifest. */
  lemma AgainPlans(d: Dir, log: seq<Entry>, e: Entry, op: Op, digest: string -> string)
    requires AlmostFollows(d, log) && log[|log| - 1].manifest.version == |log| && Installs(op, log, digest)
    requires e == LogNext(log, op, digest)[|log|]
    ensures Plan(d, op, digest).1 == ArchiveWrites(|log|) + InstallWrites(e.model, e.allowlist, e.manifest)
  {
    AlmostVersions(d, log);
    if op.Rollback? { RollbackPlans(d, log, e, op, digest); } else { PromotionPlans(d, log, e, op, digest); }
  }

  lemma AgainGives(d: Dir, log: seq<Entry>, e: Entry, op: Op, digest: string -> string)
    requires AlmostFollows(d, log) && log[|log| - 1].manifest.version == |log| && Installs(op, log, digest)
    requires e == LogNext(log, op, digest)[|log|]
    ensures Perform(d, op, digest) == Dir(AsRelease(e), d.versions[|log| := AsRelease(log[|log| - 1])])
  {
    AgainPlans(d, log, e, op, digest);
    ApplyAllConcat(d, ArchiveWrites(|log|), InstallWrites(e.model, e.allowlist, e.manifest));
    ArchivedIs(d, |log|, log[|log| - 1]);
    ThreeWrites(ApplyAll(d, ArchiveWrites(|log|)), e.model, e.allowlist, e.manifest);
  }

  lemma AgainIsExact(d: Dir, log: seq<Entry>, op: Op, digest: string -> string)
    requires AlmostFollows(d, log) && IsTrail(log, digest) && Installs(op, log, digest)
    ensures Follows(Perform(d, op, digest), LogNext(log, op, digest))
  {
    assert log[|log| - 1].manifest.version == |log|;
    var e := LogNext(log, op, digest)[|log|];
    AgainGives(d, log, e, op, digest);
    OneMoreFollows(d, log, log, e);
    assert LogNext(log, op, digest) == log + [e];
  }

  /** What follows the log depends on the release archived last. */
  lemma OneMoreFollows(d: Dir, log: seq<Entry>, most: seq<Entry>, e: Entry)
    requires AlmostFollows(d, most) && log != [] && |most| == |log| && most[..|log| - 1] == log[..|log| - 1]
    ensures Follows(Dir(AsRelease(e), d.versions[|log| := AsRelease(most[|log| - 1])]), log + [e]) <==>
            most[|log| - 1] == log[|log| - 1]
  {
    var n := |log|;
    var after := Dir(AsRelease(e), d.versions[n := AsRelease(most[n - 1])]);
    assert (log + [e])[n] == e && (log + [e])[n - 1] == log[n - 1];
    forall v | 1 <= v < n ensures v in after.versions && after.versions[v] == AsRelease((log + [e])[v - 1]) {
      assert most[v - 1] == most[..n - 1][v - 1] && log[v - 1] == log[..n - 1][v - 1];
    }
    assert after.versions[n] == AsRelease(most[n - 1]);
  }

  lemma PartlyArchived(d: Dir, log: seq<Entry>, install: seq<Write>, k: nat, cut: bool, junk: string)
    requires Follows(d, log) && log != [] && k < 4
    ensures AlmostFollows(Interrupted(d, ArchiveWrites(|log|) + install, k, cut, junk), log)
  {
    var archive := ArchiveWrites(|log|);
    var ws := archive + install;
    assert ws[..k] == archive[..k] && ws[k] == archive[k];
    PartArchived(d, log, archive[..k]);
    CutArchived(ApplyAll(d, archive[..k]), log, archive[k], junk);
  }

  lemma CutArchived(d: Dir, log: seq<Entry>, w: Write, junk: string)
    requires AlmostFollows(d, log) && IsArchiving(w) && w.version == |log|
    ensures AlmostFollows(CutShort(d, w, junk), log)
  {
  }

  /** A command stopped while archiving and done again ends as if it had never been stopped. */
  lemma AgainAfterArchiving(d: Dir, log: seq<Entry>, op: Op, k: nat, cut: bool, junk: string, digest: string -> string)
    requires Follows(d, log) && log != [] && IsTrail(log, digest) && Installs(op, log, digest)
    requires k < 4
    ensures k < |Plan(d, op, digest).1|
    ensures Follows(Perform(Interrupted(d, Plan(d, op, digest).1, k, cut, junk), op, digest), LogNext(log, op, digest))
  {
    assert log[|log| - 1].manifest.version == |log|;
    var e := LogNext(log, op, digest)[|log|];
    AgainPlans(d, log, e, op, digest);
    PartlyArchived(d, log, InstallWrites(e.model, e.allowlist, e.manifest), k, cut, junk);
    AgainIsExact(Interrupted(d, Plan(d, op, digest).1, k, cut, junk), log, op, digest);
  }

  /** What an installation stopped after `k` writes leaves served, the next write perhaps begun. */
  function Mixed(last: Entry, e: Entry, k: nat, cut: bool, junk: string): Entry {
    Entry(if k >= 1 then e.model else if cut then junk else last.model,
          if k >= 2 then e.allowlist else if k == 1 && cut then junk else last.allowlist, last.manifest)
  }

  /** The files written so far, and the one being written, hold what they held. */
  predicate IsUnmixed(last: Entry, model: string, allowlist: string, k: nat, cut: bool, junk: string) {
    && (k >= 1 ==> model == last.model) && (k >= 2 ==> allowlist == last.allowlist)
    && (cut ==> (k == 0 && junk == last.model) || (k == 1 && junk == last.allowlist))
  }

  /** Stopped while installing, the manifest not begun, the served files are mixed and all else is archived. */
  lemma PartlyInstalled(d: Dir, log: seq<Entry>, e: Entry, k: nat, cut: bool, junk: string)
    requires Follows(d, log) && log != [] && k < 3 && (cut ==> k < 2)
    ensures var part := Interrupted(d, ArchiveWrites(|log|) + InstallWrites(e.model, e.allowlist, e.manifest),
                                    4 + k, cut, junk);
      part == Dir(AsRelease(Mixed(log[|log| - 1], e, k, cut, junk)),
                  d.versions[|log| := AsRelease(log[|log| - 1])])
  {
    var n, last := |log|, log[|log| - 1];
    var archive, install := ArchiveWrites(n), InstallWrites(e.model, e.allowlist, e.manifest);
    InterruptedAfter(d, archive, install, 4 + k, cut, junk);
    ArchivedIs(d, n, last);
    PartInstalled(ApplyAll(d, archive), e, k);
  }

  lemma TornIsStuck(d: Dir, log: seq<Entry>, e: Entry, junk: string, op: Op, digest: string -> string)
    requires log != []
    ensures var part := Interrupted(d, ArchiveWrites(|log|) + InstallWrites(e.model, e.allowlist, e.manifest),
                                    6, true, junk);
      !Follows(Perform(part, op, digest), LogNext(log, op, digest))
  {
    var archive, install := ArchiveWrites(|log|), InstallWrites(e.model, e.allowlist, e.manifest);
    InterruptedAfter(d, archive, install, 6, true, junk);
    var part := Interrupted(d, archive + install, 6, true, junk);
    assert part.current.manifest.Torn?;
    TornManifestStopsAll(part, op, digest);
  }

  /** A command stopped while installing and done again archives under the old version what it finds: it ends as
      if never stopped exactly when every file written so far, and the one being written, holds what it held. */
  lemma AgainAfterInstalling(d: Dir, log: seq<Entry>, op: Op, e: Entry, k: nat, cut: bool, junk: string,
                             digest: string -> string)
    requires Follows(d, log) && log != [] && IsTrail(log, digest) && Installs(op, log, digest)
    requires k < 3 && e == LogNext(log, op, digest)[|log|]
    ensures |Plan(d, op, digest).1| == 7
    ensures Follows(Perform(Interrupted(d, Plan(d, op, digest).1, 4 + k, cut, junk), op, digest),
                    LogNext(log, op, digest)) <==>
            IsUnmixed(log[|log| - 1], e.model, e.allowlist, k, cut, junk)
  {
    assert log[|log| - 1].manifest.version == |log|;
    AgainPlans(d, log, e, op, digest);
    if cut && k == 2 {
      TornIsStuck(d, log, e, junk, op, digest);
    } else {
      PartlyInstalled(d, log, e, k, cut, junk);
      UnmixedIff(log[|log| - 1], e, k, cut, junk);
      var mixed := Mixed(log[|log| - 1], e, k, cut, junk);
      MixedAgain(d, log, mixed, op, Interrupted(d, Plan(d, op, digest).1, 4 + k, cut, junk), digest);
    }
  }

  lemma MixedFollows(d: Dir, log: seq<Entry>, mixed: Entry, most: seq<Entry>, part: Dir)
    requires Follows(d, log) && log != [] && most == log[..|log| - 1] + [mixed]
    requires part == Dir(AsRelease(mixed), d.versions[|log| := AsRelease(log[|log| - 1])])
    ensures AlmostFollows(part, most) && |most| == |log| && most[..|log| - 1] == log[..|log| - 1]
    ensures most[|log| - 1] == mixed
  {
    forall v | 1 <= v < |log| ensures v in part.versions && part.versions[v] == AsRelease(most[v - 1]) {
      assert d.versions[v] == AsRelease(log[v - 1]) && most[v - 1] == log[v - 1];
    }
  }

  lemma UnmixedIff(last: Entry, e: Entry, k: nat, cut: bool, junk: string)
    requires k < 3 && (cut ==> k < 2)
    ensures Mixed(last, e, k, cut, junk) == last <==> IsUnmixed(last, e.model, e.allowlist, k, cut, junk)
  {
  }

  lemma MixedAgain(d: Dir, log: seq<Entry>, mixed: Entry, op: Op, part: Dir, digest: string -> string)
    requires Follows(d, log) && log != [] && IsTrail(log, digest) && Installs(op, log, digest)
    requires mixed.manifest == log[|log| - 1].manifest
    requires part == Dir(AsRelease(mixed), d.versions[|log| := AsRelease(log[|log| - 1])])
    ensures Follows(Perform(part, op, digest), LogNext(log, op, digest)) <==> mixed == log[|log| - 1]
  {
    var most := log[..|log| - 1] + [mixed];
    MixedFollows(d, log, mixed, most, part);
    MixedIsExact(part, log, most, op, digest);
  }

  /** A first promotion has nothing to archive: stopped anywhere and done again it ends as if never stopped, unless
      the manifest was cut. */
  lemma AgainAfterFirst(d: Dir, op: Op, k: nat, cut: bool, junk: string, digest: string -> string)
    requires Follows(d, []) && op.confirm && IsAccepted(op, digest) && k < 3
    ensures |Plan(d, op, digest).1| == 3
    ensures Follows(Perform(Interrupted(d, Plan(d, op, digest).1, k, cut, junk), op, digest),
                    LogNext([], op, digest)) <==>
            !(cut && k == 2)
  {
    var e := LogNext([], op, digest)[0];
    var install := InstallWrites(e.model, e.allowlist, e.manifest);
    assert Plan(d, op, digest).1 == [] + install && [] + install == install;
    var part := Interrupted(d, install, k, cut, junk);
    PartInstalled(d, e, k);
    if cut && k == 2 {
      TornManifestStopsAll(part, op, digest);
    } else {
      assert Follows(part, []);
      FirstInstalled(part, e);
    }
  }

  lemma MixedIsExact(d: Dir, log: seq<Entry>, most: seq<Entry>, op: Op, digest: string -> string)
    requires AlmostFollows(d, most) && log != [] && |most| == |log| && most[..|log| - 1] == log[..|log| - 1]
    requires most[|log| - 1].manifest == log[|log| - 1].manifest
    requires IsTrail(log, digest) && Installs(op, log, digest)
    ensures Follows(Perform(d, op, digest), LogNext(log, op, digest)) <==> most[|log| - 1] == log[|log| - 1]
  {
    var n := |log|;
    assert log[n - 1].manifest.version == n;
    assert n >= 2 ==> most[n - 2] == most[..n - 1][n - 2] == log[n - 2];
    var e := LogNext(log, op, digest)[n];
    AgainGives(d, most, e, op, digest);
    OneMoreFollows(d, log, most, e);
    assert LogNext(log, op, digest) == log + [e];
  }
}
