/** The memory facade: project activation, conversation and decision logging with
    the inline auto-checkpoint check, and the read-only views (search, recent
    activity, context for the assistant). */
module Memory {
  import opened Wrappers
  import opened Seqs
  import opened Strings
  import opened Models
  import opened Store
  import opened Context

  const DEFAULT_CATEGORY := "general"
  /** The inline check estimates over this many newest non-archived rows. */
  const ESTIMATE_WINDOW := 50
  const SEARCH_LIMIT := 10
  const RECENT_CONVERSATIONS := 5
  const RECENT_DECISIONS := 5
  const RECENT_CHECKPOINTS := 3
  const DEFAULT_AI_CONVERSATIONS := 20
  const AI_DECISIONS := 10
  const AI_FILES := 10

  // ---------------------------------------------------------------------
  // Projects
  // ---------------------------------------------------------------------

  /** The 'active' project with the greatest `last_active` (the earliest row on a tie), if any. */
  function AutoLoad(ps: seq<Project>): (r: Option<Project>)
    ensures r.None? <==> forall i :: 0 <= i < |ps| ==> ps[i].status != ACTIVE
    ensures r.Some? ==> r.value in ps && r.value.status == ACTIVE
    ensures r.Some? ==> forall i :: 0 <= i < |ps| && ps[i].status == ACTIVE ==> ps[i].lastActive <= r.value.lastActive
  {
    if ps == [] then None
    else
      var init := ps[..|ps| - 1];
      var best := AutoLoad(init);
      var last := ps[|ps| - 1];
      assert forall i :: 0 <= i < |init| ==> ps[i] == init[i];
      if last.status == ACTIVE && (best.None? || best.value.lastActive < last.lastActive) then Some(last)
      else best
  }

  /** `query(Project).filter_by(name=...).first()`. */
  function FindProject(ps: seq<Project>, name: string): Option<nat> {
    FirstWhere(ps, (p: Project) => p.name == name)
  }

  datatype InitOutcome = InitOutcome(tables: Tables, project: Option<Project>, ok: bool)

  /** `init_project`: an existing name is reactivated, an unknown one inserted;
      the project row becomes the current project. */
  function InitEffect(t: Tables, name: string, path: string): InitOutcome {
    match FindProject(t.projects, name)
    case Some(i) =>
      var t' := TouchProject(t, i);
      InitOutcome(t', Some(t'.projects[i]), true)
    case None =>
      if CanAddProject(t, name, path) then
        var t' := AddProject(t, name, path);
        InitOutcome(t', Some(t'.projects[|t.projects|]), true)
      else InitOutcome(t, None, false)
  }

  /** Initialising never creates a second project of a name: an existing one is
      reactivated in place; an unknown one adds exactly one active row. Either way
      the project is now the most recently active one, so a fresh facade loads it. */
  lemma InitProjectActivates(t: Tables, name: string, path: string)
    requires TablesValid(t)
    ensures var o := InitEffect(t, name, path);
      && TablesValid(o.tables)
      && (FindProject(t.projects, name).Some? ==>
            && o.ok && |o.tables.projects| == |t.projects|
            && forall i :: 0 <= i < |t.projects| ==>
                 o.tables.projects[i].id == t.projects[i].id && o.tables.projects[i].name == t.projects[i].name)
      && (FindProject(t.projects, name).None? ==>
            o.ok == CanAddProject(t, name, path)
            && |o.tables.projects| == |t.projects| + (if o.ok then 1 else 0)
            && o.tables.projects[..|t.projects|] == t.projects)
      && (!o.ok ==> o.tables == t)
      && (o.ok ==>
            && o.project.Some? && o.project.value in o.tables.projects
            && o.project.value.name == name && o.project.value.status == ACTIVE
            && AutoLoad(o.tables.projects) == o.project)
  {
    InitValid(t, name, path);
    InitLoads(t, name, path);
    InitShape(t, name, path);
  }

  lemma InitShape(t: Tables, name: string, path: string)
    ensures var o := InitEffect(t, name, path);
      && (FindProject(t.projects, name).Some? ==>
            && o.ok && |o.tables.projects| == |t.projects|
            && forall i :: 0 <= i < |t.projects| ==>
                 o.tables.projects[i].id == t.projects[i].id && o.tables.projects[i].name == t.projects[i].name)
      && (FindProject(t.projects, name).None? ==>
            o.ok == CanAddProject(t, name, path)
            && |o.tables.projects| == |t.projects| + (if o.ok then 1 else 0)
            && o.tables.projects[..|t.projects|] == t.projects)
      && (!o.ok ==> o.tables == t)
  {
    var o := InitEffect(t, name, path);
    match FindProject(t.projects, name) {
      case Some(i) =>
        assert o.tables.projects == t.projects[i := t.projects[i].(lastActive := t.clock + 1, status := ACTIVE)];
      case None =>
        if CanAddProject(t, name, path) {
          assert o.tables == AddProject(t, name, path);
        } else {
          assert o.tables == t;
        }
    }
  }

  lemma InitValid(t: Tables, name: string, path: string)
    requires TablesValid(t)
    ensures TablesValid(InitEffect(t, name, path).tables)
  {
    var found := FindProject(t.projects, name);
    if found.Some? {
      TouchProjectValid(t, found.value);
    } else if CanAddProject(t, name, path) {
      AddProjectValid(t, name, path);
    }
  }

  /** The initialised project is the only row active at the new clock, so it is
      the one the next facade loads. */
  lemma InitLoads(t: Tables, name: string, path: string)
    requires ProjectsValid(t.projects, t.nextProjectId, t.clock)
    ensures var o := InitEffect(t, name, path);
      o.ok ==>
        && o.project.Some? && o.project.value in o.tables.projects
        && o.project.value.name == name && o.project.value.status == ACTIVE
        && AutoLoad(o.tables.projects) == o.project
  {
    var o := InitEffect(t, name, path);
    var found := FindProject(t.projects, name);
    if o.ok {
      var ps := o.tables.projects;
      var p := o.project.value;
      var pos := if found.Some? then found.value else |t.projects|;
      assert ps[pos] == p && p.lastActive == t.clock + 1;
      forall i | 0 <= i < |ps| && i != pos ensures ps[i].lastActive < p.lastActive {
        assert ps[i] == t.projects[i];
      }
      var r := AutoLoad(ps);
      var j :| 0 <= j < |ps| && ps[j] == r.value;
      assert j == pos;
    }
  }

  // ---------------------------------------------------------------------
  // Logging
  // ---------------------------------------------------------------------

  /** The facade's inline copy of the trigger rule. */
  predicate CheckpointDue(count: int, tokens: int) {
    count > 0 && (count % 25 == 0 || tokens > 28000)
  }

  /** The inline copy agrees with the checkpoint manager's rule on every input. */
  lemma CheckpointDueIsTriggerRule(count: int, tokens: int)
    ensures CheckpointDue(count, tokens) == ShouldAutoCheckpoint(count, tokens)
  {
  }

  function MemoryAutoDescription(count: nat): string {
    "Auto-checkpoint at " + NatToString(count) + " messages"
  }

  datatype Outcome = Outcome(tables: Tables, ok: bool)

  /** `_check_auto_checkpoint`: counts the non-archived rows, estimates over the 50
      newest of them, and adds an automatic checkpoint when the rule says so; a
      refused row surfaces as `ok == false`. */
  function CheckAutoCheckpointEffect(t: Tables, pid: Id): Outcome {
    var active := ActiveConversationsOf(t.conversations, pid);
    var count := |active|;
    if !CheckpointDue(count, EstimateTokens(Newest(active, ESTIMATE_WINDOW))) then Outcome(t, true)
    else if CanAddCheckpoint(t, pid, MemoryAutoDescription(count)) then
      Outcome(AddCheckpoint(t, pid, MemoryAutoDescription(count), true), true)
    else Outcome(t, false)
  }

  /** `log_conversation`: one conversation row, then the inline check. */
  function LogEffect(t: Tables, pid: Id, command: string, snapshot: Option<string>, response: Option<string>): Outcome {
    if !CanAddConversation(t, pid, command) then Outcome(t, false)
    else CheckAutoCheckpointEffect(AddConversation(t, pid, command, snapshot, response), pid)
  }

  lemma LogConversationValid(t: Tables, pid: Id, command: string, snapshot: Option<string>, response: Option<string>)
    requires TablesValid(t)
    ensures TablesValid(LogEffect(t, pid, command, snapshot, response).tables)
  {
    if CanAddConversation(t, pid, command) {
      AddConversationValid(t, pid, command, snapshot, response);
      CheckValid(AddConversation(t, pid, command, snapshot, response), pid);
    }
  }

  /** The inline check keeps the tables valid. */
  lemma CheckValid(t: Tables, pid: Id)
    requires TablesValid(t)
    ensures TablesValid(CheckAutoCheckpointEffect(t, pid).tables)
  {
    var active := ActiveConversationsOf(t.conversations, pid);
    if CanAddCheckpoint(t, pid, MemoryAutoDescription(|active|)) {
      AddCheckpointValid(t, pid, MemoryAutoDescription(|active|), true);
    }
  }

  /** Logging appends exactly one non-archived conversation of the project, which
      raises the non-archived count by one; decisions, files and projects stay. */
  lemma LogConversationAppendsOne(t: Tables, pid: Id, command: string, snapshot: Option<string>, response: Option<string>)
    ensures var o := LogEffect(t, pid, command, snapshot, response);
      && (!CanAddConversation(t, pid, command) ==> o == Outcome(t, false))
      && (CanAddConversation(t, pid, command) ==>
           && |ActiveConversationsOf(o.tables.conversations, pid)| == |ActiveConversationsOf(t.conversations, pid)| + 1
           && |o.tables.conversations| == |t.conversations| + 1
           && o.tables.conversations[..|t.conversations|] == t.conversations
           && o.tables.conversations[|t.conversations|].projectId == pid
           && o.tables.conversations[|t.conversations|].command == command
           && !o.tables.conversations[|t.conversations|].archived
           && o.tables.decisions == t.decisions && o.tables.files == t.files && o.tables.projects == t.projects)
  {
    if CanAddConversation(t, pid, command) {
      AddConversationActive(t, pid, command, snapshot, response);
      CheckKeepsOtherTables(AddConversation(t, pid, command, snapshot, response), pid);
    }
  }

  /** The row a conversation insert appends is a non-archived row of its project. */
  lemma AddConversationActive(t: Tables, pid: Id, command: string, snapshot: Option<string>, response: Option<string>)
    ensures |ActiveConversationsOf(AddConversation(t, pid, command, snapshot, response).conversations, pid)|
      == |ActiveConversationsOf(t.conversations, pid)| + 1
  {
    var t1 := AddConversation(t, pid, command, snapshot, response);
    var c := t1.conversations[|t.conversations|];
    assert t1.conversations == t.conversations + [c];
    FilterAppend(t.conversations, c, ActiveOfProject(pid));
  }

  /** The inline check touches only the checkpoint table (and the counters). */
  lemma CheckKeepsOtherTables(t: Tables, pid: Id)
    ensures var o := CheckAutoCheckpointEffect(t, pid);
      o.tables.conversations == t.conversations && o.tables.decisions == t.decisions
      && o.tables.files == t.files && o.tables.projects == t.projects
  {
    var active := ActiveConversationsOf(t.conversations, pid);
    if CanAddCheckpoint(t, pid, MemoryAutoDescription(|active|)) {
      var t2 := AddCheckpoint(t, pid, MemoryAutoDescription(|active|), true);
      assert t2.conversations == t.conversations && t2.decisions == t.decisions;
    }
  }

  /** After the conversation, at most one checkpoint is added: exactly when the rule
      holds for the new non-archived count and the estimate over its 50 newest rows
      (and the store takes the row); it is automatic and points at the conversation
      just logged. */
  lemma LogConversationCheckpoint(t: Tables, pid: Id, command: string, snapshot: Option<string>, response: Option<string>)
    requires CanAddConversation(t, pid, command)
    ensures var o := LogEffect(t, pid, command, snapshot, response);
      var t1 := AddConversation(t, pid, command, snapshot, response);
      var active := ActiveConversationsOf(t1.conversations, pid);
      var due := CheckpointDue(|active|, EstimateTokens(Newest(active, ESTIMATE_WINDOW)));
      var added := due && CanAddCheckpoint(t1, pid, MemoryAutoDescription(|active|));
      && o.tables.checkpoints[..|t.checkpoints|] == t.checkpoints
      && |o.tables.checkpoints| == |t.checkpoints| + (if added then 1 else 0)
      && o.ok == (!due || added)
      && (added ==>
            var cp := o.tables.checkpoints[|t.checkpoints|];
            cp.messageId == t1.conversations[|t.conversations|].id
            && cp.autoCreated && cp.projectId == pid
            && cp.description == MemoryAutoDescription(|active|))
  {
    var t1 := AddConversation(t, pid, command, snapshot, response);
    assert LatestConversationId(t1.conversations, pid) == t1.conversations[|t.conversations|].id;
  }

  /** The 25th non-archived message of a project always brings an automatic checkpoint. */
  lemma TwentyFifthMessageCheckpoints(t: Tables, pid: Id, command: string, snapshot: Option<string>, response: Option<string>)
    requires CanAddConversation(t, pid, command)
    requires |ActiveConversationsOf(t.conversations, pid)| == 24
    ensures var o := LogEffect(t, pid, command, snapshot, response);
      o.ok && |o.tables.checkpoints| == |t.checkpoints| + 1
      && o.tables.checkpoints[|t.checkpoints|].autoCreated
      && o.tables.checkpoints[|t.checkpoints|].description == "Auto-checkpoint at 25 messages"
  {
    AddConversationActive(t, pid, command, snapshot, response);
    assert MemoryAutoDescription(25) == "Auto-checkpoint at 25 messages" by {
      assert NatToString(25) == "25";
    }
    LogConversationCheckpoint(t, pid, command, snapshot, response);
  }

  function LogDecisionEffect(t: Tables, pid: Id, text: string, category: string, reasoning: Option<string>): Outcome {
    if CanAddDecision(t, pid, category) then Outcome(AddDecision(t, pid, category, text, reasoning), true)
    else Outcome(t, false)
  }

  /** A decision adds one decision row and nothing else: no checkpoint, and no
      change to the count that drives the 25-message rule. */
  lemma LogDecisionNeverCheckpoints(t: Tables, pid: Id, text: string, category: string, reasoning: Option<string>)
    requires TablesValid(t)
    ensures var o := LogDecisionEffect(t, pid, text, category, reasoning);
      && TablesValid(o.tables)
      && o.ok == CanAddDecision(t, pid, category)
      && o.tables.checkpoints == t.checkpoints && o.tables.conversations == t.conversations
      && |ActiveConversationsOf(o.tables.conversations, pid)| == |ActiveConversationsOf(t.conversations, pid)|
      && |o.tables.decisions| == |t.decisions| + (if o.ok then 1 else 0)
      && (o.ok ==>
            && o.tables.decisions[|t.decisions|].decision == text
            && o.tables.decisions[|t.decisions|].category == category)
  {
    if CanAddDecision(t, pid, category) {
      AddDecisionValid(t, pid, category, text, reasoning);
    }
  }

  // ---------------------------------------------------------------------
  // Read-only views
  // ---------------------------------------------------------------------

  /** `ILIKE '%term%'` on the command or on a present response. */
  predicate ConversationMatches(c: Conversation, term: string) {
    ContainsIgnoringCase(c.command, term) || (c.response.Some? && ContainsIgnoringCase(c.response.value, term))
  }

  predicate DecisionMatches(d: Decision, term: string) {
    ContainsIgnoringCase(d.decision, term) || (d.reasoning.Some? && ContainsIgnoringCase(d.reasoning.value, term))
  }

  function ConversationHit(pid: Id, term: string): Conversation -> bool {
    (c: Conversation) => c.projectId == pid && !c.archived && ConversationMatches(c, term)
  }

  function DecisionHit(pid: Id, term: string): Decision -> bool {
    (d: Decision) => d.projectId == pid && DecisionMatches(d, term)
  }

  datatype SearchResults = SearchResults(conversations: seq<Conversation>, decisions: seq<Decision>)

  /** `search_memory`'s two queries. */
  function Search(t: Tables, pid: Id, term: string): (r: SearchResults)
    ensures |r.conversations| <= SEARCH_LIMIT && |r.decisions| <= SEARCH_LIMIT
    ensures forall i :: 0 <= i < |r.conversations| ==>
      var c := r.conversations[i];
      c in t.conversations && c.projectId == pid && !c.archived && ConversationMatches(c, term)
    ensures forall i :: 0 <= i < |r.decisions| ==>
      var d := r.decisions[i];
      d in t.decisions && d.projectId == pid && DecisionMatches(d, term)
  {
    SearchResults(Newest(Filter(t.conversations, ConversationHit(pid, term)), SEARCH_LIMIT),
                  Newest(Filter(t.decisions, DecisionHit(pid, term)), SEARCH_LIMIT))
  }

  /** Both lists are the ten newest matches, newest first: a match is left out
      only of a full list and only when it is older than everything listed; with
      at most ten matches, all of them are returned. */
  lemma SearchIsNewestFirst(t: Tables, pid: Id, term: string)
    requires TablesValid(t)
    ensures var r := Search(t, pid, term);
      && NewestFirst(r.conversations, Filter(t.conversations, ConversationHit(pid, term)), SEARCH_LIMIT, ConversationStamp())
      && NewestFirst(r.decisions, Filter(t.decisions, DecisionHit(pid, term)), SEARCH_LIMIT, DecisionStamp())
  {
    ValidTimestampsIncrease(t);
    FilterKeepsIncreasing(t.conversations, ConversationHit(pid, term), ConversationStamp());
    NewestWindow(Filter(t.conversations, ConversationHit(pid, term)), SEARCH_LIMIT, ConversationStamp());
    FilterKeepsIncreasing(t.decisions, DecisionHit(pid, term), DecisionStamp());
    NewestWindow(Filter(t.decisions, DecisionHit(pid, term)), SEARCH_LIMIT, DecisionStamp());
  }

  datatype Activity = Activity(conversations: seq<Conversation>, decisions: seq<Decision>, checkpoints: seq<Checkpoint>)

  /** `get_recent_activity`'s three queries. */
  function RecentActivity(t: Tables, pid: Id): (r: Activity)
    ensures |r.conversations| == Min(RECENT_CONVERSATIONS, |ActiveConversationsOf(t.conversations, pid)|)
    ensures |r.decisions| == Min(RECENT_DECISIONS, |DecisionsOf(t.decisions, pid)|)
    ensures |r.checkpoints| == Min(RECENT_CHECKPOINTS, |CheckpointsOf(t.checkpoints, pid)|)
    ensures forall i :: 0 <= i < |r.conversations| ==>
      r.conversations[i] in t.conversations && r.conversations[i].projectId == pid && !r.conversations[i].archived
    ensures forall i :: 0 <= i < |r.decisions| ==> r.decisions[i] in t.decisions && r.decisions[i].projectId == pid
    ensures forall i :: 0 <= i < |r.checkpoints| ==> r.checkpoints[i] in t.checkpoints && r.checkpoints[i].projectId == pid
  {
    Activity(Newest(ActiveConversationsOf(t.conversations, pid), RECENT_CONVERSATIONS),
             Newest(DecisionsOf(t.decisions, pid), RECENT_DECISIONS),
             Newest(CheckpointsOf(t.checkpoints, pid), RECENT_CHECKPOINTS))
  }

  /** Each list is the project's newest rows of its table, newest first: five
      non-archived conversations, five decisions, three checkpoints. */
  lemma RecentActivityIsNewest(t: Tables, pid: Id)
    requires TablesValid(t)
    ensures var r := RecentActivity(t, pid);
      && NewestFirst(r.conversations, ActiveConversationsOf(t.conversations, pid), RECENT_CONVERSATIONS, ConversationStamp())
      && NewestFirst(r.decisions, DecisionsOf(t.decisions, pid), RECENT_DECISIONS, DecisionStamp())
      && NewestFirst(r.checkpoints, CheckpointsOf(t.checkpoints, pid), RECENT_CHECKPOINTS, CheckpointStamp())
  {
    ValidTimestampsIncrease(t);
    FilterKeepsIncreasing(t.conversations, ActiveOfProject(pid), ConversationStamp());
    NewestWindow(ActiveConversationsOf(t.conversations, pid), RECENT_CONVERSATIONS, ConversationStamp());
    FilterKeepsIncreasing(t.decisions, (d: Decision) => d.projectId == pid, DecisionStamp());
    NewestWindow(DecisionsOf(t.decisions, pid), RECENT_DECISIONS, DecisionStamp());
    FilterKeepsIncreasing(t.checkpoints, (c: Checkpoint) => c.projectId == pid, CheckpointStamp());
    NewestWindow(CheckpointsOf(t.checkpoints, pid), RECENT_CHECKPOINTS, CheckpointStamp());
  }

  datatype AiContext = AiContext(
    project: Project, conversations: seq<Conversation>, decisions: seq<Decision>, files: seq<FileTracked>)

  function NewerAnalysis(): (FileTracked, FileTracked) -> bool {
    (a: FileTracked, b: FileTracked) => a.lastAnalyzed >= b.lastAnalyzed
  }

  /** `ORDER BY last_analyzed DESC LIMIT n` on the file rows `fs`. */
  function MostRecentlyAnalysed(fs: seq<FileTracked>, n: nat): seq<FileTracked> {
    var sorted := SortDesc(fs, NewerAnalysis());
    sorted[..Min(n, |sorted|)]
  }

  /** `get_context_for_ai`: the `limit` newest non-archived conversations put back
      in chronological order, ten newest decisions, ten most recently analysed files. */
  function ContextForAi(t: Tables, p: Project, limit: nat): (r: AiContext)
    ensures r.project == p
    ensures |r.conversations| == Min(limit, |ActiveConversationsOf(t.conversations, p.id)|)
    ensures |r.decisions| <= AI_DECISIONS && |r.files| <= AI_FILES
    ensures forall i :: 0 <= i < |r.decisions| ==> r.decisions[i] in t.decisions && r.decisions[i].projectId == p.id
  {
    AiContext(p, Reverse(Newest(ActiveConversationsOf(t.conversations, p.id), limit)),
              Newest(DecisionsOf(t.decisions, p.id), AI_DECISIONS),
              MostRecentlyAnalysed(FilesOf(t.files, p.id), AI_FILES))
  }

  /** The conversations are the trailing window of the non-archived log, oldest first. */
  lemma ContextForAiChronological(t: Tables, p: Project, limit: nat)
    requires Chronological(t.conversations)
    ensures var r := ContextForAi(t, p, limit).conversations;
      var active := ActiveConversationsOf(t.conversations, p.id);
      && r == active[|active| - Min(limit, |active|)..]
      && (forall i, j :: 0 <= i < j < |r| ==> r[i].timestamp < r[j].timestamp)
  {
    var active := ActiveConversationsOf(t.conversations, p.id);
    NewestReversedIsSuffix(active, limit);
    var key := (c: Conversation) => c.timestamp;
    assert Increasing(t.conversations, key);
    FilterKeepsIncreasing(t.conversations, ActiveOfProject(p.id), key);
    NewestReversedIncreasing(active, limit, key);
  }

  /** The decisions are the project's ten newest, newest first. */
  lemma ContextForAiDecisionsNewest(t: Tables, p: Project, limit: nat)
    requires TablesValid(t)
    ensures NewestFirst(ContextForAi(t, p, limit).decisions, DecisionsOf(t.decisions, p.id), AI_DECISIONS, DecisionStamp())
  {
    ValidTimestampsIncrease(t);
    FilterKeepsIncreasing(t.decisions, (d: Decision) => d.projectId == p.id, DecisionStamp());
    NewestWindow(DecisionsOf(t.decisions, p.id), AI_DECISIONS, DecisionStamp());
  }

  function AnalysisStamp(): FileTracked -> int {
    (f: FileTracked) => f.lastAnalyzed
  }

  /** The files are the project's ten most recently analysed, by `last_analyzed`
      descending: a project file is left out only of a full list and only when it
      was analysed no later than every listed one; with at most ten files, all
      of them are listed. */
  lemma ContextForAiFiles(t: Tables, p: Project, limit: nat)
    ensures var r := ContextForAi(t, p, limit).files;
      var files := FilesOf(t.files, p.id);
      && |r| == Min(AI_FILES, |files|)
      && (forall i :: 0 < i < |r| ==> r[i - 1].lastAnalyzed >= r[i].lastAnalyzed)
      && (forall f :: f in r ==> f in t.files && f.projectId == p.id)
      && (forall f :: f in files && f !in r ==>
            |r| == AI_FILES && forall j :: 0 <= j < |r| ==> f.lastAnalyzed <= r[j].lastAnalyzed)
      && (|files| <= AI_FILES ==> forall f :: f in files ==> f in r)
  {
    var files := FilesOf(t.files, p.id);
    MostRecentlyAnalysedTop(files, AI_FILES);
    forall f | f in MostRecentlyAnalysed(files, AI_FILES) ensures f in t.files && f.projectId == p.id {
      assert f in files;
    }
  }

  /** The sorted window is a top-`n` of `fs` by `last_analyzed`. */
  lemma MostRecentlyAnalysedTop(fs: seq<FileTracked>, n: nat)
    ensures var r := MostRecentlyAnalysed(fs, n);
      && |r| == Min(n, |fs|)
      && (forall i :: 0 < i < |r| ==> r[i - 1].lastAnalyzed >= r[i].lastAnalyzed)
      && (forall f :: f in r ==> f in fs)
      && (forall f :: f in fs && f !in r ==>
            |r| == n && forall j :: 0 <= j < |r| ==> f.lastAnalyzed <= r[j].lastAnalyzed)
      && (|fs| <= n ==> forall f :: f in fs ==> f in r)
  {
    SortDescSorted(fs, NewerAnalysis());
    var sorted := SortDesc(fs, NewerAnalysis());
    assert forall k :: 0 < k < |sorted| ==> AnalysisStamp()(sorted[k]) <= AnalysisStamp()(sorted[k - 1]);
    TopOfDescending(sorted, fs, n, AnalysisStamp());
  }

  // ---------------------------------------------------------------------
  // The facade object
  // ---------------------------------------------------------------------

  class MemoryManager {
    const db: Database
    var current: Option<Project>

    /** Opens the facade on the most recently active project, if any. */
    constructor(db: Database)
      ensures this.db == db && current == AutoLoad(db.projects)
    {
      this.db := db;
      current := AutoLoad(db.projects);
    }

    /** Initialises `name` at `path`, or at the working directory `cwd` when no path is given. */
    method InitProject(name: string, cwd: string, path: Option<string> := None) returns (ok: bool)
      requires db.Valid()
      modifies this, db
      ensures db.Valid()
      ensures var o := InitEffect(old(db.State()), name, path.GetOr(cwd));
        db.State() == o.tables && ok == o.ok && current == (if o.ok then o.project else old(current))
    {
      var projectPath := path.GetOr(cwd);
      ghost var t := db.State();
      var found := FindProject(db.projects, name);
      if found.Some? {
        db.ReactivateProject(found.value);
        current := Some(db.projects[found.value]);
        ok := true;
        assert db.State() == InitEffect(t, name, projectPath).tables;
      } else {
        ok := db.InsertProject(name, projectPath);
        if ok {
          current := Some(db.projects[|db.projects| - 1]);
        }
        assert db.State() == InitEffect(t, name, projectPath).tables;
      }
    }

    /** The inline check after a logged conversation; without a project it does nothing. */
    method CheckAutoCheckpoint() returns (ok: bool)
      requires db.Valid()
      modifies db
      ensures db.Valid()
      ensures current.None? ==> ok && db.State() == old(db.State())
      ensures current.Some? ==> Outcome(db.State(), ok) == CheckAutoCheckpointEffect(old(db.State()), current.value.id)
    {
      if current.None? {
        return true;
      }
      var pid := current.value.id;
      var active := ActiveConversationsOf(db.conversations, pid);
      var count := |active|;
      var tokens := EstimateTokens(Newest(active, ESTIMATE_WINDOW));
      if CheckpointDue(count, tokens) {
        ok := db.InsertCheckpoint(pid, MemoryAutoDescription(count), true);
      } else {
        ok := true;
      }
    }

    method LogConversation(command: string, snapshot: Option<string>, response: Option<string>) returns (ok: bool)
      requires db.Valid()
      modifies db
      ensures db.Valid()
      ensures current.None? ==> !ok && db.State() == old(db.State())
      ensures current.Some? ==>
        Outcome(db.State(), ok) == LogEffect(old(db.State()), current.value.id, command, snapshot, response)
    {
      if current.None? {
        return false;
      }
      ok := db.InsertConversation(current.value.id, command, snapshot, response);
      if !ok {
        return;
      }
      ok := CheckAutoCheckpoint();
    }

    method LogDecision(text: string, category: string := DEFAULT_CATEGORY, reasoning: Option<string> := None) returns (ok: bool)
      requires db.Valid()
      modifies db
      ensures db.Valid()
      ensures current.None? ==> !ok && db.State() == old(db.State())
      ensures current.Some? ==>
        Outcome(db.State(), ok) == LogDecisionEffect(old(db.State()), current.value.id, text, category, reasoning)
    {
      if current.None? {
        return false;
      }
      ok := db.InsertDecision(current.value.id, category, text, reasoning);
    }

    method SearchMemory(term: string) returns (r: Option<SearchResults>)
      ensures r == if current.None? then None else Some(Search(db.State(), current.value.id, term))
    {
      if current.None? {
        return None;
      }
      r := Some(Search(db.State(), current.value.id, term));
    }

    method GetRecentActivity() returns (r: Option<Activity>)
      ensures r == if current.None? then None else Some(RecentActivity(db.State(), current.value.id))
    {
      if current.None? {
        return None;
      }
      r := Some(RecentActivity(db.State(), current.value.id));
    }

    /** No project gives the empty context. */
    method GetContextForAi(limit: nat := DEFAULT_AI_CONVERSATIONS) returns (r: Option<AiContext>)
      ensures r == if current.None? then None else Some(ContextForAi(db.State(), current.value, limit))
    {
      if current.None? {
        return None;
      }
      r := Some(ContextForAi(db.State(), current.value, limit));
    }
  }
}
