/** Release promotion and rollback over the weights directory: each command is a list of single writes, so
    that a run can also stop between two of them. */
module Promotion {
  import opened Text

  datatype Note = Promoted | RolledBack(from: nat, target: nat)

  datatype Manifest = Manifest(version: nat, modelHash: string, allowlistHash: string, gateHash: Option<string>,
                               note: Note)

  /** `manifest.json`: absent, cut short by an interrupted write, or complete. */
  datatype ManifestFile = NoManifest | Torn | Says(manifest: Manifest)

  datatype Release = Release(model: Option<string>, allowlist: Option<string>, manifest: ManifestFile)

  const NOTHING := Release(None, None, NoManifest)

  /** The served files, and what is archived under `versions/v1`, `versions/v2` and so on. */
  datatype Dir = Dir(current: Release, versions: map<nat, Release>)

  datatype Report = Report(formatOk: bool, verdict: string, modelHash: string, text: string)

  datatype Op =
    | Promote(model: Option<string>, allowlist: Option<string>, report: Report, confirm: bool)
    | Rollback(confirm: bool)

  datatype Reason = MissingModel | MissingAllowlist | WrongFormat | NotPassed | HashMismatch | UnreadableManifest
                  | NothingToRollBack | NoEarlierRelease | IncompleteArchive

  datatype Outcome = Refused(reason: Reason) | DryRun(version: nat) | Done(version: nat)

  // ---------- versions ----------

  ghost function MaxOf(s: set<nat>): (m: nat)
    requires s != {}
    ensures m in s && forall x :: x in s ==> x <= m
  {
    var x :| x in s;
    if s == {x} then x
    else
      assert s - {x} != {};
      var m := MaxOf(s - {x});
      assert forall y :: y in s ==> y == x || y in s - {x};
      if x > m then x else m
  }

  ghost function NextVersion(d: Dir): nat {
    if !d.current.manifest.Says? then 1
    else
      var cur := d.current.manifest.manifest.version;
      var above := (if d.versions.Keys == {} then 0 else MaxOf(d.versions.Keys)) + 1;
      if above > cur + 1 then above else cur + 1
  }

  function Below(versions: map<nat, Release>, cur: nat): set<nat> {
    set v | v in versions && v < cur
  }

  // ---------- single writes ----------

  datatype Write =
    | MakeVersion(version: nat) | ArchiveModel(version: nat) | ArchiveAllowlist(version: nat)
    | ArchiveManifest(version: nat)
    | PutModel(text: string) | PutAllowlist(text: string) | PutManifest(manifest: Manifest)

  function Archived(d: Dir, v: nat): Release {
    if v in d.versions then d.versions[v] else NOTHING
  }

  /** A copy replaces the archived file when there is one to copy. */
  function Apply(d: Dir, w: Write): Dir {
    match w
    case MakeVersion(v) => d.(versions := d.versions[v := Archived(d, v)])
    case ArchiveModel(v) =>
      if d.current.model.None? then d else d.(versions := d.versions[v := Archived(d, v).(model := d.current.model)])
    case ArchiveAllowlist(v) =>
      if d.current.allowlist.None? then d
      else d.(versions := d.versions[v := Archived(d, v).(allowlist := d.current.allowlist)])
    case ArchiveManifest(v) =>
      if d.current.manifest.NoManifest? then d
      else d.(versions := d.versions[v := Archived(d, v).(manifest := d.current.manifest)])
    case PutModel(text) => d.(current := d.current.(model := Some(text)))
    case PutAllowlist(text) => d.(current := d.current.(allowlist := Some(text)))
    case PutManifest(m) => d.(current := d.current.(manifest := Says(m)))
  }

  function ApplyAll(d: Dir, ws: seq<Write>): Dir {
    if ws == [] then d else Apply(ApplyAll(d, ws[..|ws| - 1]), ws[|ws| - 1])
  }

  function ArchiveWrites(v: nat): seq<Write> {
    [MakeVersion(v), ArchiveModel(v), ArchiveAllowlist(v), ArchiveManifest(v)]
  }

  function InstallWrites(model: string, allowlist: string, m: Manifest): seq<Write> {
    [PutModel(model), PutAllowlist(allowlist), PutManifest(m)]
  }

  // ---------- the commands ----------

  ghost function PlanPromote(d: Dir, op: Op, digest: string -> string): (Outcome, seq<Write>)
    requires op.Promote?
  {
    if op.model.None? then (Refused(MissingModel), [])
    else if op.allowlist.None? then (Refused(MissingAllowlist), [])
    else if !op.report.formatOk then (Refused(WrongFormat), [])
    else if op.report.verdict != "PASS" then (Refused(NotPassed), [])
    else if op.report.modelHash != digest(op.model.value) then (Refused(HashMismatch), [])
    else if d.current.manifest.Torn? then (Refused(UnreadableManifest), [])
    else
      var version := NextVersion(d);
      if !op.confirm then (DryRun(version), [])
      else
        var m := Manifest(version, digest(op.model.value), digest(op.allowlist.value), Some(digest(op.report.text)),
                          Promoted);
        (Done(version),
         (if d.current.manifest.Says? then ArchiveWrites(d.current.manifest.manifest.version) else []) +
         InstallWrites(op.model.value, op.allowlist.value, m))
  }

  ghost function PlanRollback(d: Dir, op: Op, digest: string -> string): (Outcome, seq<Write>)
    requires op.Rollback?
  {
    if d.current.manifest.NoManifest? then (Refused(NothingToRollBack), [])
    else if d.current.manifest.Torn? then (Refused(UnreadableManifest), [])
    else
      var cur := d.current.manifest.manifest.version;
      if Below(d.versions, cur) == {} then (Refused(NoEarlierRelease), [])
      else
        var prev := MaxOf(Below(d.versions, cur));
        var release := d.versions[prev];
        var version := MaxOf(d.versions.Keys + {cur}) + 1;
        if release.model.None? || release.allowlist.None? then (Refused(IncompleteArchive), [])
        else if !op.confirm then (DryRun(version), [])
        else
          var m := Manifest(version, digest(release.model.value), digest(release.allowlist.value), None,
                            RolledBack(cur, prev));
          (Done(version), ArchiveWrites(cur) + InstallWrites(release.model.value, release.allowlist.value, m))
  }

  ghost function Plan(d: Dir, op: Op, digest: string -> string): (Outcome, seq<Write>) {
    if op.Promote? then PlanPromote(d, op, digest) else PlanRollback(d, op, digest)
  }

  /** A command that runs to its end. */
  ghost function Perform(d: Dir, op: Op, digest: string -> string): Dir {
    ApplyAll(d, Plan(d, op, digest).1)
  }

  // ---------- the directory ----------

  class Weights {
    var model: Option<string>
    var allowlist: Option<string>
    var manifest: ManifestFile
    var versions: map<nat, Release>

    function Contents(): Dir
      reads this
    {
      Dir(Release(model, allowlist, manifest), versions)
    }

    constructor (d: Dir)
      ensures Contents() == d
    {
      model, allowlist, manifest, versions := d.current.model, d.current.allowlist, d.current.manifest, d.versions;
    }

    /** Every archived version, smallest first. */
    method ExistingVersions() returns (out: seq<nat>)
      ensures forall v :: v in out <==> v in versions
      ensures forall i, j :: 0 <= i < j < |out| ==> out[i] < out[j]
    {
      out := [];
      var left := versions.Keys;
      while left != {}
        invariant left <= versions.Keys
        invariant forall v :: v in versions <==> v in out || v in left
        invariant forall v :: v in out ==> v !in left
        invariant forall i, j :: 0 <= i < j < |out| ==> out[i] < out[j]
        decreases |left|
      {
        var v :| v in left;
        out := Inserted(out, v);
        left := left - {v};
      }
    }

    method Archive(version: nat)
      modifies this`versions
      ensures Contents() == ApplyAll(old(Contents()), ArchiveWrites(version))
    {
      FourWrites(Contents(), version);
      var dest := if version in versions then versions[version] else NOTHING;
      if model.Some? { dest := dest.(model := model); }
      if allowlist.Some? { dest := dest.(allowlist := allowlist); }
      if manifest != NoManifest { dest := dest.(manifest := manifest); }
      versions := versions[version := dest];
    }

    method Install(candidateModel: string, candidateAllowlist: string, m: Manifest)
      modifies this`model, this`allowlist, this`manifest
      ensures Contents() == ApplyAll(old(Contents()), InstallWrites(candidateModel, candidateAllowlist, m))
    {
      ThreeWrites(Contents(), candidateModel, candidateAllowlist, m);
      model := Some(candidateModel);
      allowlist := Some(candidateAllowlist);
      manifest := Says(m);
    }

    method Promote(op: Op, digest: string -> string) returns (outcome: Outcome)
      requires op.Promote?
      modifies this
      ensures outcome == old(Plan(Contents(), op, digest)).0
      ensures Contents() == Perform(old(Contents()), op, digest)
    {
      if op.model.None? { return Refused(MissingModel); }
      if op.allowlist.None? { return Refused(MissingAllowlist); }
      if !op.report.formatOk { return Refused(WrongFormat); }
      if op.report.verdict != "PASS" { return Refused(NotPassed); }
      if op.report.modelHash != digest(op.model.value) { return Refused(HashMismatch); }
      if manifest.Torn? { return Refused(UnreadableManifest); }
      var version := 1;
      if manifest.Says? {
        var existing := ExistingVersions();
        LastIsMax(existing, versions.Keys);
        version := (if existing == [] then 0 else existing[|existing| - 1]) + 1;
        if manifest.manifest.version + 1 > version { version := manifest.manifest.version + 1; }
      }
      if !op.confirm { return DryRun(version); }
      var m := Manifest(version, digest(op.model.value), digest(op.allowlist.value), Some(digest(op.report.text)),
                        Promoted);
      ghost var before := Contents();
      ghost var install := InstallWrites(op.model.value, op.allowlist.value, m);
      if manifest.Says? {
        ApplyAllConcat(before, ArchiveWrites(manifest.manifest.version), install);
        Archive(manifest.manifest.version);
      } else {
        assert [] + install == install;
      }
      Install(op.model.value, op.allowlist.value, m);
      return Done(version);
    }

    /** The release to go back to, and the version it comes back as. */
    method FindPrevious(cur: nat) returns (found: bool, prev: nat, version: nat)
      ensures found <==> Below(versions, cur) != {}
      ensures found ==> prev == MaxOf(Below(versions, cur)) && version == MaxOf(versions.Keys + {cur}) + 1
    {
      var existing := ExistingVersions();
      var below := Earlier(existing, cur);
      assert forall v :: v in below <==> v in Below(versions, cur);
      LastIsMax(below, Below(versions, cur));
      if below == [] { return false, 0, 0; }
      LastIsMax(existing, versions.Keys);
      assert below[0] in versions.Keys;
      LargerOf(versions.Keys, cur);
      var top := existing[|existing| - 1];
      return true, below[|below| - 1], (if cur > top then cur else top) + 1;
    }

    method Rollback(op: Op, digest: string -> string) returns (outcome: Outcome)
      requires op.Rollback?
      modifies this
      ensures outcome == old(Plan(Contents(), op, digest)).0
      ensures Contents() == Perform(old(Contents()), op, digest)
    {
      if manifest.NoManifest? { return Refused(NothingToRollBack); }
      if manifest.Torn? { return Refused(UnreadableManifest); }
      var cur := manifest.manifest.version;
      var found, prev, version := FindPrevious(cur);
      if !found { return Refused(NoEarlierRelease); }
      var release := versions[prev];
      if release.model.None? || release.allowlist.None? { return Refused(IncompleteArchive); }
      if !op.confirm { return DryRun(version); }
      var m := Manifest(version, digest(release.model.value), digest(release.allowlist.value), None,
                        RolledBack(cur, prev));
      ApplyAllConcat(Contents(), ArchiveWrites(cur), InstallWrites(release.model.value, release.allowlist.value, m));
      Archive(cur);
      Install(release.model.value, release.allowlist.value, m);
      return Done(version);
    }
  }

  /** The versions before `cur`, in order. */
  method Earlier(existing: seq<nat>, cur: nat) returns (below: seq<nat>)
    requires forall i, j :: 0 <= i < j < |existing| ==> existing[i] < existing[j]
    ensures forall v :: v in below <==> v in existing && v < cur
    ensures forall i, j :: 0 <= i < j < |below| ==> below[i] < below[j]
  {
    below := [];
    for k := 0 to |existing|
      invariant forall v :: v in below <==> v in existing[..k] && v < cur
      invariant forall i, j :: 0 <= i < j < |below| ==> below[i] < below[j]
    {
      assert existing[..k + 1] == existing[..k] + [existing[k]];
      ghost var seen := existing[..k];
      assert forall i :: 0 <= i < |seen| ==> seen[i] < existing[k];
      assert forall i :: 0 <= i < |below| ==> below[i] in below;
      if existing[k] < cur { below := below + [existing[k]]; }
    }
    assert existing[..|existing|] == existing;
  }

  function Inserted(xs: seq<nat>, v: nat): (r: seq<nat>)
    requires v !in xs && forall i, j :: 0 <= i < j < |xs| ==> xs[i] < xs[j]
    ensures (forall x :: x in r <==> x == v || x in xs) && forall i, j :: 0 <= i < j < |r| ==> r[i] < r[j]
  {
    if xs == [] || xs[|xs| - 1] < v then xs + [v]
    else
      var rest := xs[..|xs| - 1];
      var front := Inserted(rest, v);
      assert forall i :: 0 <= i < |front| ==> front[i] in front;
      assert forall x :: x in rest ==> x < xs[|xs| - 1];
      front + [xs[|xs| - 1]]
  }

  lemma LastIsMax(xs: seq<nat>, s: set<nat>)
    requires (forall v :: v in xs <==> v in s) && forall i, j :: 0 <= i < j < |xs| ==> xs[i] < xs[j]
    ensures s == {} <==> xs == []
    ensures s != {} ==> xs[|xs| - 1] == MaxOf(s)
  {
    if xs != [] {
      assert xs[|xs| - 1] in s && MaxOf(s) in xs;
    }
  }

  lemma LargerOf(s: set<nat>, cur: nat)
    requires s != {}
    ensures MaxOf(s + {cur}) == if cur > MaxOf(s) then cur else MaxOf(s)
  {
    assert MaxOf(s + {cur}) in s + {cur} && MaxOf(s) in s + {cur} && cur in s + {cur};
  }

  lemma {:induction false} ApplyAllConcat(d: Dir, a: seq<Write>, b: seq<Write>)
    ensures ApplyAll(d, a + b) == ApplyAll(ApplyAll(d, a), b)
  {
    if b == [] {
      assert a + b == a;
    } else {
      assert (a + b)[..|a + b| - 1] == a + b[..|b| - 1];
      ApplyAllConcat(d, a, b[..|b| - 1]);
    }
  }

  lemma AllOf(d: Dir, ws: seq<Write>, w: Write)
    ensures ApplyAll(d, ws + [w]) == Apply(ApplyAll(d, ws), w)
  {
    assert (ws + [w])[..|ws|] == ws;
  }

  lemma FourWrites(d: Dir, v: nat)
    ensures ApplyAll(d, ArchiveWrites(v)) ==
      Apply(Apply(Apply(Apply(d, MakeVersion(v)), ArchiveModel(v)), ArchiveAllowlist(v)), ArchiveManifest(v))
  {
    var a, b, c, e := MakeVersion(v), ArchiveModel(v), ArchiveAllowlist(v), ArchiveManifest(v);
    assert [] + [a] == [a] && [a] + [b] == [a, b] && [a, b] + [c] == [a, b, c] && [a, b, c] + [e] == ArchiveWrites(v);
    AllOf(d, [], a);
    AllOf(d, [a], b);
    AllOf(d, [a, b], c);
    AllOf(d, [a, b, c], e);
    assert ApplyAll(d, []) == d;
  }

  lemma ThreeWrites(d: Dir, model: string, allowlist: string, m: Manifest)
    ensures ApplyAll(d, InstallWrites(model, allowlist, m)) ==
            d.(current := Release(Some(model), Some(allowlist), Says(m)))
  {
    var a, b, c := PutModel(model), PutAllowlist(allowlist), PutManifest(m);
    assert [] + [a] == [a] && [a] + [b] == [a, b] && [a, b] + [c] == InstallWrites(model, allowlist, m);
    AllOf(d, [], a);
    AllOf(d, [a], b);
    AllOf(d, [a, b], c);
    assert ApplyAll(d, []) == d;
  }
}
