/** The relational store as in-memory tables. Every table is a sequence in
    insertion order; serial ids and logical timestamps both grow along it, so
    "ORDER BY timestamp DESC" is newest-first table order. A session's
    "add then commit" is one write of the tables; a failing commit (a value too
    long for its column, a project id with no project row) leaves them as they were. */
module Store {
  import opened Wrappers
  import opened Seqs
  import opened Models

  /** The whole persisted state: five tables, their id sequences and the clock. */
  datatype Tables = Tables(
    projects: seq<Project>,
    conversations: seq<Conversation>,
    decisions: seq<Decision>,
    files: seq<FileTracked>,
    checkpoints: seq<Checkpoint>,
    nextProjectId: Id,
    nextConversationId: Id,
    nextDecisionId: Id,
    nextFileId: Id,
    nextCheckpointId: Id,
    clock: Timestamp)

  const EmptyTables := Tables([], [], [], [], [], 1, 1, 1, 1, 1, 0)

  predicate HasProject(ps: seq<Project>, pid: Id) {
    exists i | 0 <= i < |ps| :: ps[i].id == pid
  }

  predicate HasConversation(cs: seq<Conversation>, pid: Id, id: int) {
    exists k | 0 <= k < |cs| :: cs[k].projectId == pid && cs[k].id == id
  }

  // ---------------------------------------------------------------------
  // Invariants of the tables
  // ---------------------------------------------------------------------

  /** Ids grow along the table; names are unique; rows fit their columns. */
  ghost predicate ProjectsValid(ps: seq<Project>, next: Id, clock: Timestamp) {
    && 0 < next
    && (forall i, j :: 0 <= i < j < |ps| ==> ps[i].id < ps[j].id && ps[i].name != ps[j].name)
    && (forall i :: 0 <= i < |ps| ==>
          0 < ps[i].id < next && ps[i].createdAt <= clock && ps[i].lastActive <= clock && ProjectFits(ps[i]))
  }

  /** Ids and timestamps grow along the table; every row belongs to a project. */
  ghost predicate ConversationsValid(cs: seq<Conversation>, ps: seq<Project>, next: Id, clock: Timestamp) {
    && 0 < next
    && (forall i, j :: 0 <= i < j < |cs| ==> cs[i].id < cs[j].id && cs[i].timestamp < cs[j].timestamp)
    && (forall i :: 0 <= i < |cs| ==>
          0 < cs[i].id < next && cs[i].timestamp <= clock && ConversationFits(cs[i]) && HasProject(ps, cs[i].projectId))
  }

  ghost predicate DecisionsValid(ds: seq<Decision>, ps: seq<Project>, next: Id, clock: Timestamp) {
    && 0 < next
    && (forall i, j :: 0 <= i < j < |ds| ==> ds[i].id < ds[j].id && ds[i].timestamp < ds[j].timestamp)
    && (forall i :: 0 <= i < |ds| ==>
          0 < ds[i].id < next && ds[i].timestamp <= clock && DecisionFits(ds[i]) && HasProject(ps, ds[i].projectId))
  }

  /** No two file rows share a project and a path. The schema does not enforce
      this; the tracker keeps it by looking a path up before inserting it. */
  predicate UniqueKeys(fs: seq<FileTracked>) {
    Pairwise(fs, DifferentKeys)
  }

  predicate DifferentKeys(a: FileTracked, b: FileTracked) {
    !(a.projectId == b.projectId && a.path == b.path)
  }

  /** File rows keep their ids in increasing order; their `last_analyzed` moves on updates. */
  ghost predicate FilesValid(fs: seq<FileTracked>, ps: seq<Project>, next: Id, clock: Timestamp) {
    && 0 < next
    && UniqueKeys(fs)
    && (forall i, j :: 0 <= i < j < |fs| ==> fs[i].id < fs[j].id)
    && (forall i :: 0 <= i < |fs| ==>
          0 < fs[i].id < next && fs[i].lastAnalyzed <= clock && FileFits(fs[i]) && HasProject(ps, fs[i].projectId))
  }

  /** Ids and timestamps grow along the table; each `message_id` is 0 or names a
      conversation of the same project. */
  ghost predicate CheckpointsValid(cps: seq<Checkpoint>, cs: seq<Conversation>, ps: seq<Project>, next: Id, clock: Timestamp) {
    && 0 < next
    && (forall i, j :: 0 <= i < j < |cps| ==> cps[i].id < cps[j].id && cps[i].timestamp < cps[j].timestamp)
    && (forall i :: 0 <= i < |cps| ==>
          0 < cps[i].id < next && cps[i].timestamp <= clock && CheckpointFits(cps[i])
          && HasProject(ps, cps[i].projectId)
          && (cps[i].messageId == 0 || HasConversation(cs, cps[i].projectId, cps[i].messageId)))
  }

  ghost predicate TablesValid(t: Tables) {
    && ProjectsValid(t.projects, t.nextProjectId, t.clock)
    && ConversationsValid(t.conversations, t.projects, t.nextConversationId, t.clock)
    && DecisionsValid(t.decisions, t.projects, t.nextDecisionId, t.clock)
    && FilesValid(t.files, t.projects, t.nextFileId, t.clock)
    && CheckpointsValid(t.checkpoints, t.conversations, t.projects, t.nextCheckpointId, t.clock)
  }

  /** Replacing the file table by a valid one, at a later time, keeps the tables valid. */
  lemma FilesReplacedValid(t: Tables, fs: seq<FileTracked>, next: Id, now: Timestamp)
    requires TablesValid(t)
    requires FilesValid(fs, t.projects, next, now) && t.clock <= now
    ensures TablesValid(t.(files := fs, nextFileId := next, clock := now))
  {
  }

  lemma EmptyTablesValid()
    ensures TablesValid(EmptyTables)
  {
  }

  /** Conversations in table order are in timestamp order. */
  predicate Chronological(cs: seq<Conversation>) {
    forall i, j :: 0 <= i < j < |cs| ==> cs[i].timestamp < cs[j].timestamp
  }

  lemma ValidIsChronological(t: Tables)
    requires TablesValid(t)
    ensures Chronological(t.conversations)
  {
  }

  /** The `timestamp` columns, as sort keys. */
  function ConversationStamp(): Conversation -> int {
    (c: Conversation) => c.timestamp
  }

  function DecisionStamp(): Decision -> int {
    (d: Decision) => d.timestamp
  }

  function CheckpointStamp(): Checkpoint -> int {
    (c: Checkpoint) => c.timestamp
  }

  /** In valid tables, table order is `timestamp` order for the timestamped tables. */
  lemma ValidTimestampsIncrease(t: Tables)
    requires TablesValid(t)
    ensures Increasing(t.conversations, ConversationStamp())
    ensures Increasing(t.decisions, DecisionStamp())
    ensures Increasing(t.checkpoints, CheckpointStamp())
  {
  }

  // ---------------------------------------------------------------------
  // Queries
  // ---------------------------------------------------------------------

  function OfProject(pid: Id): Conversation -> bool {
    (c: Conversation) => c.projectId == pid
  }

  function ActiveOfProject(pid: Id): Conversation -> bool {
    (c: Conversation) => c.projectId == pid && !c.archived
  }

  function ArchivedOfProject(pid: Id): Conversation -> bool {
    (c: Conversation) => c.projectId == pid && c.archived
  }

  /** `query(Conversation).filter_by(project_id=pid)`, in table order. */
  function ConversationsOf(cs: seq<Conversation>, pid: Id): seq<Conversation> {
    Filter(cs, OfProject(pid))
  }

  /** `query(Conversation).filter_by(project_id=pid, archived=False)`, in table order. */
  function ActiveConversationsOf(cs: seq<Conversation>, pid: Id): seq<Conversation> {
    Filter(cs, ActiveOfProject(pid))
  }

  function ArchivedConversationsOf(cs: seq<Conversation>, pid: Id): seq<Conversation> {
    Filter(cs, ArchivedOfProject(pid))
  }

  function DecisionsOf(ds: seq<Decision>, pid: Id): seq<Decision> {
    Filter(ds, (d: Decision) => d.projectId == pid)
  }

  function CheckpointsOf(cps: seq<Checkpoint>, pid: Id): seq<Checkpoint> {
    Filter(cps, (c: Checkpoint) => c.projectId == pid)
  }

  function FileOfProject(pid: Id): FileTracked -> bool {
    (f: FileTracked) => f.projectId == pid
  }

  function FilesOf(fs: seq<FileTracked>, pid: Id): seq<FileTracked> {
    Filter(fs, FileOfProject(pid))
  }

  /** `filter_by(project_id=pid, path=path)` on the file table. */
  function FileAt(pid: Id, path: string): FileTracked -> bool {
    (f: FileTracked) => f.projectId == pid && f.path == path
  }

  /** `latest.id if latest else 0` where `latest` is the project's newest
      conversation, archived or not. */
  function LatestConversationId(cs: seq<Conversation>, pid: Id): (r: int)
    ensures r == 0 || HasConversation(cs, pid, r)
  {
    match LastWhere(cs, (c: Conversation) => c.projectId == pid)
    case None => 0
    case Some(k) => cs[k].id
  }

  /** Under the invariants the table-order answer is the newest conversation by
      timestamp and by id, and 0 exactly when the project has none. */
  lemma LatestConversationIsNewest(t: Tables, pid: Id)
    requires TablesValid(t)
    ensures var r := LatestConversationId(t.conversations, pid);
      && (r == 0 <==> forall k :: 0 <= k < |t.conversations| ==> t.conversations[k].projectId != pid)
      && (forall c :: c in t.conversations && c.projectId == pid ==> c.id <= r)
  {
    var cs := t.conversations;
    var last := LastWhere(cs, (c: Conversation) => c.projectId == pid);
    if last.Some? {
      var k := last.value;
      forall c | c in cs && c.projectId == pid ensures c.id <= cs[k].id {
        var j :| 0 <= j < |cs| && cs[j] == c;
        assert j <= k;
      }
    }
  }

  // ---------------------------------------------------------------------
  // Writes (one session add + commit each)
  // ---------------------------------------------------------------------

  predicate CanAddConversation(t: Tables, pid: Id, command: string) {
    HasProject(t.projects, pid) && |command| <= COMMAND_LENGTH
  }

  function AddConversation(t: Tables, pid: Id, command: string,
                           snapshot: Option<string>, response: Option<string>): Tables {
    var now := t.clock + 1;
    t.(conversations := t.conversations + [NewConversation(t.nextConversationId, pid, now, command, snapshot, response)],
       nextConversationId := t.nextConversationId + 1,
       clock := now)
  }

  predicate CanAddDecision(t: Tables, pid: Id, category: string) {
    HasProject(t.projects, pid) && |category| <= CATEGORY_LENGTH
  }

  function AddDecision(t: Tables, pid: Id, category: string, text: string, reasoning: Option<string>): Tables {
    var now := t.clock + 1;
    t.(decisions := t.decisions + [Decision(t.nextDecisionId, pid, category, text, reasoning, now)],
       nextDecisionId := t.nextDecisionId + 1,
       clock := now)
  }

  predicate CanAddCheckpoint(t: Tables, pid: Id, description: string) {
    HasProject(t.projects, pid) && |description| <= DESCRIPTION_LENGTH
  }

  /** A checkpoint referencing the project's newest conversation (0 if none). */
  function AddCheckpoint(t: Tables, pid: Id, description: string, autoCreated: bool): Tables {
    var now := t.clock + 1;
    var cp := NewCheckpoint(t.nextCheckpointId, pid, LatestConversationId(t.conversations, pid), description, now, autoCreated);
    t.(checkpoints := t.checkpoints + [cp],
       nextCheckpointId := t.nextCheckpointId + 1,
       clock := now)
  }

  predicate CanAddProject(t: Tables, name: string, path: string) {
    |name| <= NAME_LENGTH && |path| <= PROJECT_PATH_LENGTH
  }

  function AddProject(t: Tables, name: string, path: string): Tables {
    var now := t.clock + 1;
    t.(projects := t.projects + [NewProject(t.nextProjectId, name, path, now)],
       nextProjectId := t.nextProjectId + 1,
       clock := now)
  }

  /** Reactivation of the project at position `i`: status 'active', `last_active` now. */
  function TouchProject(t: Tables, i: nat): Tables
    requires i < |t.projects|
  {
    var now := t.clock + 1;
    t.(projects := TouchedAt(t.projects, i, now), clock := now)
  }

  /** The project row at position `i`, 'active' with `last_active` now. */
  function TouchedAt(ps: seq<Project>, i: nat, now: Timestamp): seq<Project>
    requires i < |ps|
  {
    ps[i := ps[i].(lastActive := now, status := ACTIVE)]
  }

  lemma AddConversationValid(t: Tables, pid: Id, command: string, snapshot: Option<string>, response: Option<string>)
    requires TablesValid(t) && CanAddConversation(t, pid, command)
    ensures TablesValid(AddConversation(t, pid, command, snapshot, response))
  {
    var t' := AddConversation(t, pid, command, snapshot, response);
    var c := NewConversation(t.nextConversationId, pid, t'.clock, command, snapshot, response);
    assert t'.conversations == t.conversations + [c];
    ConversationAppendValid(t.conversations, t.projects, t.nextConversationId, t.clock, c);
    CheckpointsKeptValid(t.checkpoints, t.conversations, t'.conversations, t.projects, t.nextCheckpointId, t.clock, t'.clock);
  }

  /** A row with the next id and a later timestamp extends a valid conversation table. */
  lemma ConversationAppendValid(cs: seq<Conversation>, ps: seq<Project>, next: Id, clock: Timestamp, c: Conversation)
    requires ConversationsValid(cs, ps, next, clock)
    requires c.id == next && c.timestamp == clock + 1 && ConversationFits(c) && HasProject(ps, c.projectId)
    ensures ConversationsValid(cs + [c], ps, next + 1, clock + 1)
  {
    var cs' := cs + [c];
    forall i | 0 <= i < |cs'|
      ensures 0 < cs'[i].id < next + 1 && cs'[i].timestamp <= clock + 1
      ensures ConversationFits(cs'[i]) && HasProject(ps, cs'[i].projectId)
    {
      if i < |cs| { assert cs'[i] == cs[i]; }
    }
  }

  /** Checkpoints stay valid when conversations are only appended and the clock moves on. */
  lemma CheckpointsKeptValid(cps: seq<Checkpoint>, cs: seq<Conversation>, cs': seq<Conversation>, ps: seq<Project>,
                             next: Id, clock: Timestamp, clock': Timestamp)
    requires CheckpointsValid(cps, cs, ps, next, clock)
    requires |cs| <= |cs'| && cs'[..|cs|] == cs && clock <= clock'
    ensures CheckpointsValid(cps, cs', ps, next, clock')
  {
    forall i | 0 <= i < |cps| && cps[i].messageId != 0
      ensures HasConversation(cs', cps[i].projectId, cps[i].messageId)
    {
      var k :| 0 <= k < |cs| && cs[k].projectId == cps[i].projectId && cs[k].id == cps[i].messageId;
      assert cs'[k] == cs[k];
    }
  }

  lemma AddDecisionValid(t: Tables, pid: Id, category: string, text: string, reasoning: Option<string>)
    requires TablesValid(t) && CanAddDecision(t, pid, category)
    ensures TablesValid(AddDecision(t, pid, category, text, reasoning))
  {
    var t' := AddDecision(t, pid, category, text, reasoning);
    var d := Decision(t.nextDecisionId, pid, category, text, reasoning, t'.clock);
    assert t'.decisions == t.decisions + [d];
    DecisionAppendValid(t.decisions, t.projects, t.nextDecisionId, t.clock, d);
  }

  /** A row with the next id and a later timestamp extends a valid decision table. */
  lemma DecisionAppendValid(ds: seq<Decision>, ps: seq<Project>, next: Id, clock: Timestamp, d: Decision)
    requires DecisionsValid(ds, ps, next, clock)
    requires d.id == next && d.timestamp == clock + 1 && DecisionFits(d) && HasProject(ps, d.projectId)
    ensures DecisionsValid(ds + [d], ps, next + 1, clock + 1)
  {
    var ds' := ds + [d];
    forall i | 0 <= i < |ds'|
      ensures 0 < ds'[i].id < next + 1 && ds'[i].timestamp <= clock + 1
      ensures DecisionFits(ds'[i]) && HasProject(ps, ds'[i].projectId)
    {
      if i < |ds| { assert ds'[i] == ds[i]; }
    }
  }

  lemma AddCheckpointValid(t: Tables, pid: Id, description: string, autoCreated: bool)
    requires TablesValid(t) && CanAddCheckpoint(t, pid, description)
    ensures TablesValid(AddCheckpoint(t, pid, description, autoCreated))
  {
    var t' := AddCheckpoint(t, pid, description, autoCreated);
    var cp := NewCheckpoint(t.nextCheckpointId, pid, LatestConversationId(t.conversations, pid), description, t'.clock, autoCreated);
    assert t'.checkpoints == t.checkpoints + [cp];
    CheckpointAppendValid(t.checkpoints, t.conversations, t.projects, t.nextCheckpointId, t.clock, cp);
  }

  /** A row with the next id, a later timestamp and a resolvable `message_id`
      extends a valid checkpoint table. */
  lemma CheckpointAppendValid(cps: seq<Checkpoint>, cs: seq<Conversation>, ps: seq<Project>, next: Id, clock: Timestamp, cp: Checkpoint)
    requires CheckpointsValid(cps, cs, ps, next, clock)
    requires cp.id == next && cp.timestamp == clock + 1 && CheckpointFits(cp) && HasProject(ps, cp.projectId)
    requires cp.messageId == 0 || HasConversation(cs, cp.projectId, cp.messageId)
    ensures CheckpointsValid(cps + [cp], cs, ps, next + 1, clock + 1)
  {
    var cps' := cps + [cp];
    forall i | 0 <= i < |cps'|
      ensures 0 < cps'[i].id < next + 1 && cps'[i].timestamp <= clock + 1
      ensures CheckpointFits(cps'[i]) && HasProject(ps, cps'[i].projectId)
      ensures cps'[i].messageId == 0 || HasConversation(cs, cps'[i].projectId, cps'[i].messageId)
    {
      if i < |cps| { assert cps'[i] == cps[i]; }
    }
  }

  lemma AddProjectValid(t: Tables, name: string, path: string)
    requires TablesValid(t) && CanAddProject(t, name, path)
    requires forall i :: 0 <= i < |t.projects| ==> t.projects[i].name != name
    ensures TablesValid(AddProject(t, name, path))
  {
    var t' := AddProject(t, name, path);
    forall i | 0 <= i < |t'.projects|
      ensures 0 < t'.projects[i].id < t'.nextProjectId && t'.projects[i].createdAt <= t'.clock
      ensures t'.projects[i].lastActive <= t'.clock && ProjectFits(t'.projects[i])
    {
      if i < |t.projects| { assert t'.projects[i] == t.projects[i]; }
    }
    assert forall pid :: HasProject(t.projects, pid) ==> HasProject(t'.projects, pid) by {
      forall pid | HasProject(t.projects, pid) ensures HasProject(t'.projects, pid) {
        var i :| 0 <= i < |t.projects| && t.projects[i].id == pid;
        assert t'.projects[i] == t.projects[i];
      }
    }
  }

  lemma TouchProjectValid(t: Tables, i: nat)
    requires TablesValid(t) && i < |t.projects|
    ensures TablesValid(TouchProject(t, i))
  {
    var t' := TouchProject(t, i);
    ProjectTouchedValid(t.projects, i, t.nextProjectId, t.clock);
    ProjectTouchedKeepsIds(t.projects, i, t'.clock);
  }

  /** Touching a project row keeps ids, names and widths, and moves `last_active` to now. */
  lemma ProjectTouchedValid(ps: seq<Project>, i: nat, next: Id, clock: Timestamp)
    requires ProjectsValid(ps, next, clock) && i < |ps|
    ensures ProjectsValid(TouchedAt(ps, i, clock + 1), next, clock + 1)
  {
    var ps' := TouchedAt(ps, i, clock + 1);
    assert ProjectFits(ps'[i]);
  }

  lemma ProjectTouchedKeepsIds(ps: seq<Project>, i: nat, now: Timestamp)
    requires i < |ps|
    ensures forall pid :: HasProject(ps, pid) ==> HasProject(TouchedAt(ps, i, now), pid)
  {
    forall pid | HasProject(ps, pid) ensures HasProject(TouchedAt(ps, i, now), pid) {
      var j :| 0 <= j < |ps| && ps[j].id == pid;
      assert TouchedAt(ps, i, now)[j].id == pid;
    }
  }

  // ---------------------------------------------------------------------
  // The store object
  // ---------------------------------------------------------------------

  class Database {
    var projects: seq<Project>
    var conversations: seq<Conversation>
    var decisions: seq<Decision>
    var files: seq<FileTracked>
    var checkpoints: seq<Checkpoint>
    var nextProjectId: Id
    var nextConversationId: Id
    var nextDecisionId: Id
    var nextFileId: Id
    var nextCheckpointId: Id
    var clock: Timestamp

    /** The tables as one value. */
    function State(): Tables
      reads this
    {
      Tables(projects, conversations, decisions, files, checkpoints,
             nextProjectId, nextConversationId, nextDecisionId, nextFileId, nextCheckpointId, clock)
    }

    ghost predicate Valid()
      reads this
    {
      TablesValid(State())
    }

    constructor()
      ensures State() == EmptyTables && Valid()
    {
      projects, conversations, decisions, files, checkpoints := [], [], [], [], [];
      nextProjectId, nextConversationId, nextDecisionId, nextFileId, nextCheckpointId := 1, 1, 1, 1, 1;
      clock := 0;
    }

    /** `session.add(Conversation(...)); session.commit()`. */
    method InsertConversation(pid: Id, command: string, snapshot: Option<string>, response: Option<string>)
      returns (ok: bool)
      requires Valid()
      modifies this
      ensures Valid()
      ensures ok == CanAddConversation(old(State()), pid, command)
      ensures State() == if ok then AddConversation(old(State()), pid, command, snapshot, response) else old(State())
    {
      var t := State();
      ok := CanAddConversation(t, pid, command);
      if ok {
        AddConversationValid(t, pid, command, snapshot, response);
        var t' := AddConversation(t, pid, command, snapshot, response);
        conversations, nextConversationId, clock := t'.conversations, t'.nextConversationId, t'.clock;
      }
    }

    /** `session.add(Decision(...)); session.commit()`. */
    method InsertDecision(pid: Id, category: string, text: string, reasoning: Option<string>)
      returns (ok: bool)
      requires Valid()
      modifies this
      ensures Valid()
      ensures ok == CanAddDecision(old(State()), pid, category)
      ensures State() == if ok then AddDecision(old(State()), pid, category, text, reasoning) else old(State())
    {
      var t := State();
      ok := CanAddDecision(t, pid, category);
      if ok {
        AddDecisionValid(t, pid, category, text, reasoning);
        var t' := AddDecision(t, pid, category, text, reasoning);
        decisions, nextDecisionId, clock := t'.decisions, t'.nextDecisionId, t'.clock;
      }
    }

    /** `session.add(Checkpoint(...)); session.commit()` with the project's newest conversation id. */
    method InsertCheckpoint(pid: Id, description: string, autoCreated: bool)
      returns (ok: bool)
      requires Valid()
      modifies this
      ensures Valid()
      ensures ok == CanAddCheckpoint(old(State()), pid, description)
      ensures State() == if ok then AddCheckpoint(old(State()), pid, description, autoCreated) else old(State())
    {
      var t := State();
      ok := CanAddCheckpoint(t, pid, description);
      if ok {
        AddCheckpointValid(t, pid, description, autoCreated);
        var t' := AddCheckpoint(t, pid, description, autoCreated);
        checkpoints, nextCheckpointId, clock := t'.checkpoints, t'.nextCheckpointId, t'.clock;
      }
    }

    /** `session.add(Project(...)); session.commit()`; the unique name is checked by the caller's lookup. */
    method InsertProject(name: string, path: string)
      returns (ok: bool)
      requires Valid()
      requires forall i :: 0 <= i < |projects| ==> projects[i].name != name
      modifies this
      ensures Valid()
      ensures ok == CanAddProject(old(State()), name, path)
      ensures State() == if ok then AddProject(old(State()), name, path) else old(State())
    {
      var t := State();
      ok := CanAddProject(t, name, path);
      if ok {
        AddProjectValid(t, name, path);
        var t' := AddProject(t, name, path);
        projects, nextProjectId, clock := t'.projects, t'.nextProjectId, t'.clock;
      }
    }

    /** Commits a batch of file-row changes made in one session. */
    method CommitFiles(fs: seq<FileTracked>, nextId: Id, now: Timestamp)
      requires Valid()
      requires FilesValid(fs, projects, nextId, now) && clock <= now
      modifies this
      ensures Valid()
      ensures State() == old(State()).(files := fs, nextFileId := nextId, clock := now)
    {
      FilesReplacedValid(State(), fs, nextId, now);
      files, nextFileId, clock := fs, nextId, now;
    }

    /** Reactivates the project row at position `i`. */
    method ReactivateProject(i: nat)
      requires Valid() && i < |projects|
      modifies this
      ensures Valid()
      ensures State() == TouchProject(old(State()), i)
    {
      var t := State();
      TouchProjectValid(t, i);
      var t' := TouchProject(t, i);
      projects, clock := t'.projects, t'.clock;
    }
  }
}
