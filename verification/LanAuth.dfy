/** LAN authentication of the add-on: the mode and token in memory, the two files that record them, and
    every order in which boots, admin changes, crashes and failed writes can come. */
module LanAuth {
  /** `.lan-auth.json`: absent, not readable as JSON, or naming a mode; any mode but `required` reads as open. */
  datatype Record = NoRecord | Corrupt | Says(required: bool)

  /** `.feed_token`: absent, not readable, or holding a text, read without surrounding whitespace. */
  datatype TokenFile = NoToken | Unreadable | Holds(text: string)

  /** `artifacts`: a feed or a statistics file of an earlier version is there. */
  datatype Disk = Disk(record: Record, token: TokenFile, artifacts: bool)

  type Candidate = c: string | c != "" witness "x"

  /** The steps of creating a credential: exclusive creation, then its content. */
  datatype MintStep = Create | Fill(candidate: Candidate)

  /** What the process does next. Everything from `Idle` on comes after the server started listening. */
  datatype Phase =
    | Down
    | ReadingRecord | WritingFirstRecord | ReadingToken | BootMint(at: MintStep)
    | Idle | ChangeMint(at: MintStep) | Changing(required: bool) | Recording(required: bool)

  /** `env` is the token of the add-on's options; `ops` are the admin changes waiting their turn. */
  datatype State = State(disk: Disk, env: string, required: bool, minted: string, phase: Phase, ops: seq<bool>)

  /** `Go` is the next step of the process: `ok` says whether its write succeeds. `Damage` and `Lose`
      make a file unreadable. */
  datatype Step = Boot(env: string) | Go(ok: bool, candidate: Candidate) | Ask(required: bool) | Crash | Compile
                | DamageRecord | DamageToken

  predicate IsListening(s: State) {
    s.phase.Idle? || s.phase.ChangeMint? || s.phase.Changing? || s.phase.Recording?
  }

  function CurrentToken(s: State): string {
    if s.env != "" then s.env else s.minted
  }

  predicate RequiresToken(s: State) {
    s.env != "" || s.required
  }

  /** What a boot takes the record for. */
  predicate ReadsRequired(r: Record) {
    r.Corrupt? || (r.Says? && r.required)
  }

  // ---------- one step ----------

  /** Minting: the state, and whether it is complete. */
  function MintNext(s: State, at: MintStep, ok: bool, candidate: Candidate): (State, bool) {
    match at
    case Create =>
      (match s.disk.token
       case Holds(text) =>
         if text != "" then (s.(minted := text), true)
         else (s.(phase := if s.phase.BootMint? then BootMint(Fill(candidate)) else ChangeMint(Fill(candidate))), false)
       case Unreadable => (s.(minted := candidate), true)
       case NoToken =>
         if !ok then (s.(minted := candidate), true)
         else (s.(disk := s.disk.(token := Holds("")),
                  phase := if s.phase.BootMint? then BootMint(Fill(candidate)) else ChangeMint(Fill(candidate))),
             false))
    case Fill(chosen) =>
      (if ok then s.(disk := s.disk.(token := Holds(chosen)), minted := chosen) else s.(minted := chosen), true)
  }

  function WithRecord(disk: Disk, required: bool, ok: bool): Disk {
    if ok then disk.(record := Says(required)) else disk
  }

  function TokenRead(t: TokenFile): string {
    if t.Holds? then t.text else ""
  }

  function GoNext(s: State, ok: bool, candidate: Candidate): State {
    match s.phase
    case Down => s
    case ReadingRecord =>
      if s.env != "" then s.(required := true, phase := Idle)
      else if s.disk.record.NoRecord? then s.(required := !s.disk.artifacts, phase := WritingFirstRecord)
      else s.(required := ReadsRequired(s.disk.record), phase := ReadingToken)
    case WritingFirstRecord => s.(disk := WithRecord(s.disk, s.required, ok), phase := ReadingToken)
    case ReadingToken =>
      var read := TokenRead(s.disk.token);
      s.(minted := read, phase := if s.required && read == "" then BootMint(Create) else Idle)
    case BootMint(at) =>
      var (t, done) := MintNext(s, at, ok, candidate);
      if done then t.(phase := Idle) else t
    case Idle =>
      if s.ops == [] then s
      else s.(ops := s.ops[1..],
              phase := if s.ops[0] && CurrentToken(s) == "" then ChangeMint(Create) else Changing(s.ops[0]))
    case ChangeMint(at) =>
      var (t, done) := MintNext(s, at, ok, candidate);
      if done then t.(phase := Changing(true)) else t
    case Changing(required) => s.(required := required, phase := Recording(required))
    case Recording(required) => s.(disk := WithRecord(s.disk, required, ok), phase := Idle)
  }

  function Next(s: State, step: Step): State {
    match step
    case Boot(env) => if s.phase.Down? then State(s.disk, env, false, "", ReadingRecord, []) else s
    case Go(ok, candidate) => GoNext(s, ok, candidate)
    case Ask(required) => if IsListening(s) then s.(ops := s.ops + [required]) else s
    case Crash => State(s.disk, "", false, "", Down, [])
    case Compile => if IsListening(s) then s.(disk := s.disk.(artifacts := true)) else s
    case DamageRecord => if s.disk.record.NoRecord? then s else s.(disk := s.disk.(record := Corrupt))
    case DamageToken => if s.disk.token.NoToken? then s else s.(disk := s.disk.(token := Unreadable))
  }

  function Run(s: State, steps: seq<Step>): State {
    if steps == [] then s else Next(Run(s, steps[..|steps| - 1]), steps[|steps| - 1])
  }

  function Start(disk: Disk): State {
    State(disk, "", false, "", Down, [])
  }

  lemma {:induction false} RunConcat(s: State, a: seq<Step>, b: seq<Step>)
    ensures Run(s, a + b) == Run(Run(s, a), b)
  {
    if b == [] {
      assert a + b == a;
    } else {
      assert (a + b)[..|a + b| - 1] == a + b[..|b| - 1];
      RunConcat(s, a, b[..|b| - 1]);
    }
  }

  // ---------- a listening server that requires a token has one ----------

  ghost predicate HasToken(s: State) {
    && (IsListening(s) && RequiresToken(s) ==> CurrentToken(s) != "")
    && (s.phase.Changing? && s.phase.required ==> CurrentToken(s) != "")
    && (!IsListening(s) && !s.phase.Down? && !s.phase.ReadingRecord? ==> s.env == "")
  }

  lemma StepHasToken(s: State, step: Step)
    requires HasToken(s)
    ensures HasToken(Next(s, step))
  {
  }

  lemma {:induction false} RunHasToken(s: State, steps: seq<Step>)
    requires HasToken(s)
    ensures HasToken(Run(s, steps))
  {
    if steps != [] {
      RunHasToken(s, steps[..|steps| - 1]);
      StepHasToken(Run(s, steps[..|steps| - 1]), steps[|steps| - 1]);
    }
  }

  /** One request: whether it is let in, and whether it proved that it knows the token. */
  function Authorize(s: State, presented: string): (r: (bool, bool)) {
    if presented != "" && presented == CurrentToken(s) then (true, true) else (!RequiresToken(s), false)
  }

  /** Whatever was on disk, and whatever happened since, a listening server that requires a token lets
      in exactly the requests that present it, and some credential is one. */
  lemma ListeningServerHasToken(disk: Disk, steps: seq<Step>, presented: string)
    requires var s := Run(Start(disk), steps); IsListening(s) && RequiresToken(s)
    ensures var s := Run(Start(disk), steps);
      && CurrentToken(s) != ""
      && (Authorize(s, presented) == (true, true) <==> presented == CurrentToken(s))
      && (presented != CurrentToken(s) ==> Authorize(s, presented) == (false, false))
  {
    RunHasToken(Start(disk), steps);
  }

  // ---------- a recorded `required` does not come back as open ----------

  predicate AsksOpen(step: Step) {
    step.Ask? && !step.required
  }

  /** The record reads as required, and so does everything that is under way. */
  ghost predicate StaysRequired(s: State) {
    && ReadsRequired(s.disk.record)
    && (forall k :: 0 <= k < |s.ops| ==> s.ops[k])
    && !s.phase.WritingFirstRecord?
    && (!s.phase.Down? && !s.phase.ReadingRecord? ==> s.required)
    && (s.phase.Changing? || s.phase.Recording? ==> s.phase.required)
  }

  lemma TailStaysRequired(ops: seq<bool>)
    requires ops != [] && forall k :: 0 <= k < |ops| ==> ops[k]
    ensures ops[0] && forall k :: 0 <= k < |ops[1..]| ==> ops[1..][k]
  {
  }

  lemma GoStaysRequired(s: State, ok: bool, candidate: Candidate)
    requires StaysRequired(s)
    ensures StaysRequired(GoNext(s, ok, candidate))
  {
    if s.phase.Idle? && s.ops != [] { TailStaysRequired(s.ops); }
    if s.phase.BootMint? || s.phase.ChangeMint? {
      var (t, done) := MintNext(s, s.phase.at, ok, candidate);
      assert t.ops == s.ops && t.required == s.required && t.disk.record == s.disk.record;
    }
  }

  lemma StepStaysRequired(s: State, step: Step)
    requires StaysRequired(s) && !AsksOpen(step)
    ensures StaysRequired(Next(s, step))
  {
    if step.Go? { GoStaysRequired(s, step.ok, step.candidate); }
  }

  /** Without an admin change to open, no crash, restart, failed write or damaged file opens an
      installation whose record reads as required. */
  lemma {:induction false} RequiredNeverOpens(disk: Disk, steps: seq<Step>)
    requires ReadsRequired(disk.record) && forall k :: 0 <= k < |steps| ==> !AsksOpen(steps[k])
    ensures StaysRequired(Run(Start(disk), steps))
    ensures IsListening(Run(Start(disk), steps)) ==> RequiresToken(Run(Start(disk), steps))
  {
    if steps != [] {
      RequiredNeverOpens(disk, steps[..|steps| - 1]);
      StepStaysRequired(Run(Start(disk), steps[..|steps| - 1]), steps[|steps| - 1]);
    }
  }

  // ---------- memory and record agree ----------

  /** No failed write, no damaged file, no options token. */
  predicate IsSmooth(step: Step) {
    !(step.Go? && !step.ok) && !step.DamageRecord? && !step.DamageToken? && !(step.Boot? && step.env != "")
  }

  ghost predicate AreSmooth(steps: seq<Step>) {
    forall k :: 0 <= k < |steps| ==> IsSmooth(steps[k])
  }

  /** The mode in memory is the mode a boot would read, but while it is being recorded. */
  ghost predicate Agrees(s: State) {
    && s.env == ""
    && (s.phase.Idle? || s.phase.ChangeMint? || s.phase.Changing? || s.phase.ReadingToken? || s.phase.BootMint? ==>
         !s.disk.record.NoRecord? && ReadsRequired(s.disk.record) == s.required)
    && (s.phase.Recording? ==> s.required == s.phase.required && !s.disk.record.NoRecord?)
  }

  lemma StepAgrees(s: State, step: Step)
    requires Agrees(s) && IsSmooth(step)
    ensures Agrees(Next(s, step))
  {
  }

  /** With no options token and successful writes, the mode in memory is the recorded mode whenever no
      admin change is being recorded. */
  lemma {:induction false} MemoryAgreesWithRecord(disk: Disk, steps: seq<Step>)
    requires AreSmooth(steps)
    ensures var s := Run(Start(disk), steps);
      Agrees(s) && (s.phase.Idle? ==> !s.disk.record.NoRecord? && ReadsRequired(s.disk.record) == s.required)
  {
    if steps != [] {
      MemoryAgreesWithRecord(disk, steps[..|steps| - 1]);
      StepAgrees(Run(Start(disk), steps[..|steps| - 1]), steps[|steps| - 1]);
    }
  }

  // ---------- the token in memory is the token on disk ----------

  /** A token in memory is the one on disk, so a restart keeps every client working. */
  ghost predicate KeepsToken(s: State) {
    && s.env == "" && !s.disk.token.Unreadable?
    && (IsListening(s) ==> s.minted == TokenRead(s.disk.token))
    && (s.phase.ReadingRecord? || s.phase.WritingFirstRecord? || s.phase.ReadingToken? || s.phase.Down? ==>
          s.minted == "")
    && (s.phase.BootMint? || s.phase.ChangeMint? ==> s.minted == "" && TokenRead(s.disk.token) == "")
    && ((s.phase.BootMint? || s.phase.ChangeMint?) && s.phase.at.Fill? ==> s.disk.token == Holds(""))
  }

  lemma StepKeepsToken(s: State, step: Step)
    requires KeepsToken(s) && IsSmooth(step)
    ensures KeepsToken(Next(s, step))
    ensures TokenRead(s.disk.token) != "" ==> Next(s, step).disk.token == s.disk.token
  {
  }

  lemma {:induction false} RunKeepsToken(disk: Disk, steps: seq<Step>)
    requires AreSmooth(steps) && !disk.token.Unreadable?
    ensures KeepsToken(Run(Start(disk), steps))
  {
    if steps != [] {
      RunKeepsToken(disk, steps[..|steps| - 1]);
      StepKeepsToken(Run(Start(disk), steps[..|steps| - 1]), steps[|steps| - 1]);
    }
  }

  /** A token once on disk stays the token, through every crash, restart and change of mode. */
  lemma {:induction false} TokenIsForever(disk: Disk, before: seq<Step>, after: seq<Step>)
    requires AreSmooth(before) && AreSmooth(after) && !disk.token.Unreadable?
    requires TokenRead(Run(Start(disk), before).disk.token) != ""
    ensures Run(Start(disk), before + after).disk.token == Run(Start(disk), before).disk.token
    ensures IsListening(Run(Start(disk), before + after)) ==>
      CurrentToken(Run(Start(disk), before + after)) == TokenRead(Run(Start(disk), before).disk.token)
    decreases |after|
  {
    RunKeepsToken(disk, before + after);
    if after == [] {
      assert before + after == before;
    } else {
      var front := after[..|after| - 1];
      TokenIsForever(disk, before, front);
      RunKeepsToken(disk, before + front);
      assert (before + after)[..|before + after| - 1] == before + front;
      StepKeepsToken(Run(Start(disk), before + front), after[|after| - 1]);
    }
  }

  // ---------- what is recorded first ----------

  /** A record that reads as required has its token on disk. */
  ghost predicate IsBacked(disk: Disk) {
    ReadsRequired(disk.record) ==> TokenRead(disk.token) != ""
  }

  ghost predicate WritesTokenFirst(s: State) {
    && KeepsToken(s) && IsBacked(s.disk) && !s.disk.record.NoRecord? && !s.phase.WritingFirstRecord?
    && (s.phase.Changing? || s.phase.Recording? ==> s.phase.required ==> TokenRead(s.disk.token) != "")
  }

  lemma StepWritesTokenFirst(s: State, step: Step)
    requires WritesTokenFirst(s) && IsSmooth(step)
    ensures WritesTokenFirst(Next(s, step))
  {
    StepKeepsToken(s, step);
  }

  /** An admin change writes the token before the mode: once there is a record, no crash leaves one that
      requires a token that is not on disk. */
  lemma {:induction false} ChangesAreBacked(disk: Disk, steps: seq<Step>)
    requires AreSmooth(steps) && !disk.token.Unreadable? && !disk.record.NoRecord? && IsBacked(disk)
    ensures WritesTokenFirst(Run(Start(disk), steps))
    ensures IsBacked(Run(Start(disk), steps).disk)
  {
    if steps != [] {
      ChangesAreBacked(disk, steps[..|steps| - 1]);
      StepWritesTokenFirst(Run(Start(disk), steps[..|steps| - 1]), steps[|steps| - 1]);
    }
  }

  const NEW_INSTALL := Disk(NoRecord, NoToken, false)

  /** The first boot records the mode before it mints: a crash there leaves a required record without a token. */
  lemma FirstBootIsNotBacked()
    ensures !IsBacked(Run(Start(NEW_INSTALL), [Boot(""), Go(true, "x"), Go(true, "x"), Crash]).disk)
  {
    var s := Start(NEW_INSTALL);
    var a, b, c, d := Boot(""), Go(true, "x"), Go(true, "x"), Crash;
    FourSteps(s, a, b, c, d);
  }

  lemma FourSteps(s: State, a: Step, b: Step, c: Step, d: Step)
    ensures Run(s, [a, b, c, d]) == Next(Next(Next(Next(s, a), b), c), d)
  {
    assert [a, b, c, d][..3] == [a, b, c] && [a, b, c][..2] == [a, b] && [a, b][..1] == [a] && [a][..0] == [];
    assert Run(s, []) == s && Run(s, [a]) == Next(Run(s, []), a);
    assert Run(s, [a, b]) == Next(Run(s, [a]), b);
    assert Run(s, [a, b, c]) == Next(Run(s, [a, b]), c);
  }

  /** A new installation whose first record could not be written is required only until it has compiled
      and restarts: then it looks like an upgrade, and opens. */
  lemma UnrecordedRequiredOpens()
    ensures
      var s := Run(Start(NEW_INSTALL), [Boot(""), Go(true, "x"), Go(false, "x"), Go(true, "x")] +
                                       [Go(true, "x"), Go(true, "x"), Compile, Crash]);
      var t := Run(s, [Boot(""), Go(true, "x"), Go(true, "x"), Go(true, "x")]);
      IsListening(t) && !RequiresToken(t)
  {
    var go, fail := Go(true, "x"), Go(false, "x");
    RunConcat(Start(NEW_INSTALL), [Boot(""), go, fail, go], [go, go, Compile, Crash]);
    FourSteps(Start(NEW_INSTALL), Boot(""), go, fail, go);
    var s := Run(Start(NEW_INSTALL), [Boot(""), go, fail, go]);
    FourSteps(s, go, go, Compile, Crash);
    FourSteps(Run(s, [go, go, Compile, Crash]), Boot(""), go, go, go);
  }

  // ---------- uninterrupted boots and changes ----------

  /** How the writes of one uninterrupted operation end, and the credential it draws. */
  datatype Io = Io(recordOk: bool, createOk: bool, fillOk: bool, candidate: Candidate)

  predicate AllWritten(io: Io) {
    io.recordOk && io.createOk && io.fillOk
  }

  function WriteOk(phase: Phase, io: Io): bool {
    match phase
    case BootMint(Create) => io.createOk
    case ChangeMint(Create) => io.createOk
    case BootMint(Fill(_)) => io.fillOk
    case ChangeMint(Fill(_)) => io.fillOk
    case _ => io.recordOk
  }

  /** The next steps of the process, with nothing in between; an idle process stays idle. */
  function Drive(s: State, io: Io, n: nat): State
    decreases n
  {
    if n == 0 then s else Drive(GoNext(s, WriteOk(s.phase, io), io.candidate), io, n - 1)
  }

  lemma {:induction false} DriveIsRun(s: State, io: Io, n: nat) returns (steps: seq<Step>)
    ensures Drive(s, io, n) == Run(s, steps) && forall k :: 0 <= k < |steps| ==> steps[k].Go?
    ensures AllWritten(io) ==> AreSmooth(steps)
    decreases n
  {
    if n == 0 {
      steps := [];
    } else {
      var go := Go(WriteOk(s.phase, io), io.candidate);
      var rest := DriveIsRun(Next(s, go), io, n - 1);
      steps := [go] + rest;
      RunConcat(s, [go], rest);
      assert [go][..0] == [] && Run(s, []) == s && Run(s, [go]) == Next(Run(s, []), go);
    }
  }

  const ALL_STEPS := 5

  /** What minting leaves in the file, and the credential in use. */
  function MintResult(token: TokenFile, io: Io): (r: (TokenFile, string))
    ensures r.1 != ""
  {
    match token
    case Holds(text) =>
      if text != "" then (token, text) else (Holds(if io.fillOk then io.candidate else ""), io.candidate)
    case Unreadable => (Unreadable, io.candidate)
    case NoToken =>
      (if !io.createOk then NoToken else Holds(if io.fillOk then io.candidate else ""), io.candidate)
  }

  function AfterMint(s: State, io: Io): State {
    s.(disk := s.disk.(token := MintResult(s.disk.token, io).0), minted := MintResult(s.disk.token, io).1)
  }

  /** The mode and record a boot settles on. */
  function AfterRecord(s: State, io: Io): State {
    if s.disk.record.NoRecord?
    then s.(required := !s.disk.artifacts, disk := WithRecord(s.disk, !s.disk.artifacts, io.recordOk))
    else s.(required := ReadsRequired(s.disk.record))
  }

  function AfterBoot(s: State, io: Io): State {
    if s.env != "" then s.(required := true, phase := Idle)
    else
      var r := AfterRecord(s, io);
      var t := r.(minted := TokenRead(r.disk.token), phase := Idle);
      if t.required && t.minted == "" then AfterMint(t, io) else t
  }

  function AfterChange(s: State, required: bool, io: Io): State {
    var t := if required && CurrentToken(s) == "" then AfterMint(s, io) else s;
    t.(required := required, disk := WithRecord(t.disk, required, io.recordOk), phase := Idle, ops := [])
  }

  lemma {:induction false} IdleStays(s: State, io: Io, n: nat)
    requires s.phase.Idle? && s.ops == []
    ensures Drive(s, io, n) == s
    decreases n
  {
    if n > 0 { IdleStays(s, io, n - 1); }
  }

  lemma DrivenBootMint(s: State, io: Io, n: nat)
    requires s.phase == BootMint(Create) && s.ops == [] && n >= 2
    ensures Drive(s, io, n) == AfterMint(s, io).(phase := Idle)
  {
    var t := GoNext(s, WriteOk(s.phase, io), io.candidate);
    if t.phase.Idle? {
      IdleStays(t, io, n - 1);
    } else {
      IdleStays(GoNext(t, WriteOk(t.phase, io), io.candidate), io, n - 2);
    }
  }

  lemma DrivenReading(s: State, io: Io, n: nat)
    requires s.phase == ReadingToken && s.ops == [] && n >= 3
    ensures var t := s.(minted := TokenRead(s.disk.token), phase := Idle);
      Drive(s, io, n) == if t.required && t.minted == "" then AfterMint(t, io) else t
  {
    var t := GoNext(s, WriteOk(s.phase, io), io.candidate);
    if t.phase.Idle? { IdleStays(t, io, n - 1); } else { DrivenBootMint(t, io, n - 1); }
  }

  lemma DrivenBoot(s: State, io: Io)
    requires s.phase == ReadingRecord && s.ops == []
    ensures Drive(s, io, ALL_STEPS) == AfterBoot(s, io)
  {
    var t := GoNext(s, WriteOk(s.phase, io), io.candidate);
    if s.env != "" {
      IdleStays(t, io, 4);
    } else if s.disk.record.NoRecord? {
      DrivenReading(GoNext(t, WriteOk(t.phase, io), io.candidate), io, 3);
    } else {
      DrivenReading(t, io, 4);
    }
  }

  lemma DrivenChanging(s: State, io: Io, n: nat)
    requires s.phase.Changing? && s.ops == [] && n >= 2
    ensures Drive(s, io, n) ==
      s.(required := s.phase.required, disk := WithRecord(s.disk, s.phase.required, io.recordOk), phase := Idle)
  {
    var t := GoNext(s, WriteOk(s.phase, io), io.candidate);
    IdleStays(GoNext(t, WriteOk(t.phase, io), io.candidate), io, n - 2);
  }

  /** Minting in a change: one step when the file settles it, else a second that fills it. */
  lemma ChangeMinted(s: State, io: Io)
    requires s.phase == ChangeMint(Create)
    ensures var t := GoNext(s, WriteOk(s.phase, io), io.candidate);
      if t.phase.Changing? then t == AfterMint(s, io).(phase := Changing(true))
      else GoNext(t, WriteOk(t.phase, io), io.candidate) == AfterMint(s, io).(phase := Changing(true))
  {
  }

  lemma DrivenChangeMint(s: State, io: Io, n: nat)
    requires s.phase == ChangeMint(Create) && s.ops == [] && n >= 4
    ensures Drive(s, io, n) == Drive(AfterMint(s, io).(phase := Changing(true)), io, 2)
  {
    var t := GoNext(s, WriteOk(s.phase, io), io.candidate);
    var u := AfterMint(s, io).(phase := Changing(true));
    ChangeMinted(s, io);
    DrivenChanging(u, io, if t.phase.Changing? then n - 1 else n - 2);
    DrivenChanging(u, io, 2);
  }

  lemma DrivenChange(s: State, required: bool, io: Io)
    requires s.phase.Idle? && s.ops == [required]
    ensures Drive(s, io, ALL_STEPS) == AfterChange(s, required, io)
  {
    assert s.ops[1..] == [];
    var t := GoNext(s, WriteOk(s.phase, io), io.candidate);
    if t.phase.Changing? {
      DrivenChanging(t, io, 4);
    } else {
      DrivenChangeMint(t, io, 4);
      DrivenChanging(AfterMint(t, io).(phase := Changing(true)), io, 2);
    }
  }

  /** A boot that is not interrupted and whose writes succeed listens with memory and disk in step. What it
      leaves is backed by a token on disk unless that file cannot be read: the crash of a first boot heals. */
  lemma BootHeals(disk: Disk, io: Io)
    requires AllWritten(io)
    ensures var s := Drive(Next(Start(disk), Boot("")), io, ALL_STEPS);
      && s.phase.Idle? && !s.disk.record.NoRecord? && s.required == ReadsRequired(s.disk.record)
      && (!disk.record.NoRecord? ==> s.disk.record == disk.record)
      && (TokenRead(disk.token) != "" ==> s.disk.token == disk.token && s.minted == TokenRead(disk.token))
      && (IsBacked(s.disk) <==> !(s.required && disk.token.Unreadable?))
  {
    DrivenBoot(Next(Start(disk), Boot("")), io);
  }

  /** A boot without an options token opens exactly when the record says open, or there is none and an earlier
      version left its files: whatever its writes did, an installation that was required but never recorded so
      opens at the first boot after it has compiled. */
  lemma BootOpensIff(disk: Disk, io: Io)
    ensures var s := Drive(Next(Start(disk), Boot("")), io, ALL_STEPS);
      IsListening(s) && (!RequiresToken(s) <==>
        (disk.record.Says? && !disk.record.required) || (disk.record.NoRecord? && disk.artifacts))
  {
    DrivenBoot(Next(Start(disk), Boot("")), io);
  }

  /** One admin change that is not interrupted and whose writes succeed records its mode. The record is
      backed exactly when the token was on disk, or there was none to use and the file could be written:
      a token of the options, or one that never reached the disk, is not there after a restart. */
  lemma ChangeIsBacked(s: State, required: bool, io: Io)
    requires s.phase.Idle? && s.ops == [] && AllWritten(io)
    ensures var t := Drive(Next(s, Ask(required)), io, ALL_STEPS);
      && t.phase.Idle? && t.ops == [] && t.required == required && t.disk.record == Says(required)
      && (IsBacked(t.disk) <==>
            !required || TokenRead(s.disk.token) != "" || (CurrentToken(s) == "" && !s.disk.token.Unreadable?))
  {
    DrivenChange(Next(s, Ask(required)), required, io);
  }

  // ---------- when every crash leaves its token ----------

  /** Whatever crashes, as long as writes succeed, no record is left that requires a token not on disk. */
  ghost predicate AlwaysBacked(disk: Disk) {
    forall steps :: AreSmooth(steps) ==> IsBacked(Run(Start(disk), steps).disk)
  }

  /** What the first boot will record is backed: it opens, or there is a token already. */
  predicate IsPrepared(disk: Disk) {
    disk.record.NoRecord? ==> disk.artifacts || TokenRead(disk.token) != ""
  }

  ghost predicate StaysBacked(s: State) {
    && KeepsToken(s) && IsBacked(s.disk)
    && (s.disk.record.NoRecord? ==>
          IsPrepared(s.disk) && (s.phase.Down? || s.phase.ReadingRecord? || s.phase.WritingFirstRecord?))
    && (s.phase.WritingFirstRecord? ==> s.required ==> TokenRead(s.disk.token) != "")
    && (s.phase.Changing? || s.phase.Recording? ==> s.phase.required ==> TokenRead(s.disk.token) != "")
  }

  lemma StepStaysBacked(s: State, step: Step)
    requires StaysBacked(s) && IsSmooth(step)
    ensures StaysBacked(Next(s, step))
  {
    StepKeepsToken(s, step);
  }

  lemma {:induction false} RunStaysBacked(disk: Disk, steps: seq<Step>)
    requires AreSmooth(steps) && !disk.token.Unreadable? && IsBacked(disk) && IsPrepared(disk)
    ensures StaysBacked(Run(Start(disk), steps))
  {
    if steps != [] {
      RunStaysBacked(disk, steps[..|steps| - 1]);
      StepStaysBacked(Run(Start(disk), steps[..|steps| - 1]), steps[|steps| - 1]);
    }
  }

  /** An unprepared first boot that crashes once the mode is recorded. */
  lemma UnpreparedShows(disk: Disk)
    requires !IsPrepared(disk)
    ensures !AlwaysBacked(disk)
  {
    var steps := [Boot(""), Go(true, "x"), Go(true, "x"), Crash];
    FourSteps(Start(disk), Boot(""), Go(true, "x"), Go(true, "x"), Crash);
    assert AreSmooth(steps);
    assert !IsBacked(Run(Start(disk), steps).disk);
  }

  lemma OneStep(s: State, step: Step)
    ensures Run(s, [step]) == Next(s, step)
  {
    assert [step][..0] == [] && Run(s, []) == s;
  }

  /** One step, then the process left alone with successful writes. */
  lemma LeftAlone(s: State, step: Step, io: Io) returns (steps: seq<Step>)
    requires AllWritten(io) && IsSmooth(step)
    ensures AreSmooth(steps) && Run(s, steps) == Drive(Next(s, step), io, ALL_STEPS)
  {
    var rest := DriveIsRun(Next(s, step), io, ALL_STEPS);
    steps := [step] + rest;
    OneStep(s, step);
    RunConcat(s, [step], rest);
  }

  lemma UnreadableStays(disk: Disk, io: Io)
    requires disk.token.Unreadable?
    ensures var s := Drive(Next(Start(disk), Boot("")), io, ALL_STEPS);
      s.phase.Idle? && s.ops == [] && s.disk.token.Unreadable?
  {
    DrivenBoot(Next(Start(disk), Boot("")), io);
  }

  /** A boot and a change to required, nothing interrupted, over a token file that cannot be read. */
  lemma UnreadableShows(disk: Disk, io: Io)
    requires disk.token.Unreadable? && AllWritten(io)
    ensures !AlwaysBacked(disk)
  {
    UnreadableStays(disk, io);
    var boot := LeftAlone(Start(disk), Boot(""), io);
    var s := Run(Start(disk), boot);
    var change := LeftAlone(s, Ask(true), io);
    ChangeIsBacked(s, true, io);
    RunConcat(Start(disk), boot, change);
    assert AreSmooth(boot + change);
  }

  lemma NoStepsShow(disk: Disk)
    ensures AlwaysBacked(disk) ==> IsBacked(disk)
  {
    var none: seq<Step> := [];
    assert AreSmooth(none) && Run(Start(disk), none) == Start(disk);
  }

  /** No crash, at any time, leaves a record that requires a token not on disk exactly when none is there at the
      start, the token file can be read, and a first boot will open or finds a token: the first boot of a new
      installation records its mode before it mints. */
  lemma AlwaysBackedIff(disk: Disk)
    ensures AlwaysBacked(disk) <==> IsBacked(disk) && !disk.token.Unreadable? && IsPrepared(disk)
  {
    NoStepsShow(disk);
    if disk.token.Unreadable? {
      UnreadableShows(disk, Io(true, true, true, "x"));
    } else if !IsPrepared(disk) {
      UnpreparedShows(disk);
    } else if IsBacked(disk) {
      forall steps | AreSmooth(steps) ensures IsBacked(Run(Start(disk), steps).disk) { RunStaysBacked(disk, steps); }
    }
  }

  // ---------- the process ----------

  class Server {
    var record: Record
    var token: TokenFile
    var artifacts: bool
    const env: string
    var lanAuthMode: bool
    var mintedFeedToken: string
    var authPersistenceOk: bool

    function Contents(phase: Phase, ops: seq<bool>): State
      reads this
    {
      State(Disk(record, token, artifacts), env, lanAuthMode, mintedFeedToken, phase, ops)
    }

    constructor (disk: Disk, env: string)
      ensures this.env == env && authPersistenceOk
      ensures Contents(ReadingRecord, []) == Next(Start(disk), Boot(env))
    {
      record, token, artifacts := disk.record, disk.token, disk.artifacts;
      this.env := env;
      lanAuthMode, mintedFeedToken, authPersistenceOk := false, "", true;
    }

    method WriteAuthState(required: bool, ok: bool)
      modifies this`record, this`authPersistenceOk
      ensures Disk(record, token, artifacts) == WithRecord(old(Disk(record, token, artifacts)), required, ok)
      ensures authPersistenceOk == ok
    {
      if ok { record := Says(required); }
      authPersistenceOk := ok;
    }

    /** Creates the token unless it is there; an empty file is replaced; a failure keeps the draw in memory. */
    method MintCredential(io: Io) returns (text: string)
      modifies this`token, this`authPersistenceOk
      ensures (token, text) == MintResult(old(token), io)
      ensures authPersistenceOk == (old(authPersistenceOk) && token == Holds(text))
    {
      if token == NoToken {
        if !io.createOk {
          authPersistenceOk := false;
          return io.candidate;
        }
        token := Holds("");
      } else {
        if token == Unreadable {
          authPersistenceOk := false;
          return io.candidate;
        }
        if token.text != "" { return token.text; }
      }
      if io.fillOk {
        token := Holds(io.candidate);
      } else {
        authPersistenceOk := false;
      }
      return io.candidate;
    }

    /** The posture of a boot, decided before the server listens. */
    method InitLanAuth(io: Io)
      modifies this
      ensures Contents(Idle, []) == Drive(old(Contents(ReadingRecord, [])), io, ALL_STEPS)
    {
      DrivenBoot(Contents(ReadingRecord, []), io);
      if env != "" {
        lanAuthMode := true;
        return;
      }
      if record != NoRecord {
        lanAuthMode := record.Corrupt? || record.required;
      } else {
        lanAuthMode := !artifacts;
        WriteAuthState(lanAuthMode, io.recordOk);
      }
      mintedFeedToken := if token.Holds? then token.text else "";
      if lanAuthMode && mintedFeedToken == "" {
        mintedFeedToken := MintCredential(io);
      }
    }

    /** One admin change, run in its turn: the token before the mode that requires it. */
    method ChangeMode(required: bool, io: Io) returns (tokenMinted: bool)
      modifies this
      ensures Contents(Idle, []) == Drive(old(Contents(Idle, [required])), io, ALL_STEPS)
      ensures tokenMinted == (required && env == "" && old(mintedFeedToken) == "")
    {
      DrivenChange(Contents(Idle, [required]), required, io);
      tokenMinted := false;
      if required && env == "" && mintedFeedToken == "" {
        mintedFeedToken := MintCredential(io);
        tokenMinted := true;
      }
      lanAuthMode := required;
      WriteAuthState(lanAuthMode, io.recordOk);
    }
  }
}
