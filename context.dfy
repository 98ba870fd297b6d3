/** The checkpoint manager: the auto-checkpoint trigger rule, the
    four-characters-per-token estimate, manual and automatic checkpoints, the
    soft reset that archives every conversation logged after a checkpoint, and
    the counts behind the context status view. */
module Context {
  import opened Wrappers
  import opened Seqs
  import opened Strings
  import opened Models
  import opened Store

  const AUTO_CHECKPOINT_MESSAGE_COUNT := 25
  const AUTO_CHECKPOINT_SIZE_THRESHOLD := 28000
  const LATEST := "latest"
  /** Both the status view and the estimate look at this many newest rows. */
  const STATUS_WINDOW := 50

  // ---------------------------------------------------------------------
  // The trigger rule and the token estimate
  // ---------------------------------------------------------------------

  /** A checkpoint is due on every 25th message, or once the estimate passes 28000 tokens. */
  predicate ShouldAutoCheckpoint(count: int, tokens: int) {
    count > 0 && (count % AUTO_CHECKPOINT_MESSAGE_COUNT == 0 || tokens > AUTO_CHECKPOINT_SIZE_THRESHOLD)
  }

  /** The trigger never fires on an empty log, fires on every multiple of 25, and
      below the size threshold fires on nothing else. */
  lemma ShouldAutoCheckpointCases(count: int, tokens: int)
    ensures count <= 0 ==> !ShouldAutoCheckpoint(count, tokens)
    ensures count > 0 && tokens > AUTO_CHECKPOINT_SIZE_THRESHOLD ==> ShouldAutoCheckpoint(count, tokens)
    ensures tokens <= AUTO_CHECKPOINT_SIZE_THRESHOLD ==>
      (ShouldAutoCheckpoint(count, tokens) <==> count > 0 && count % 25 == 0)
    ensures ShouldAutoCheckpoint(25, 0) && !ShouldAutoCheckpoint(24, 0) && ShouldAutoCheckpoint(1, 28001)
  {
  }

  /** Characters a row contributes: its snapshot and its response, a missing one counting 0. */
  function Chars(c: Conversation): nat {
    (match c.contextSnapshot case None => 0 case Some(s) => |s|)
    + (match c.response case None => 0 case Some(s) => |s|)
  }

  function TotalChars(cs: seq<Conversation>): nat {
    if cs == [] then 0 else TotalChars(cs[..|cs| - 1]) + Chars(cs[|cs| - 1])
  }

  /** About four characters per token, rounded down. */
  function EstimateTokens(cs: seq<Conversation>): nat {
    TotalChars(cs) / 4
  }

  /** The estimate of no rows is 0, and adding a row never lowers it. */
  lemma EstimateMonotone(cs: seq<Conversation>, c: Conversation)
    ensures EstimateTokens([]) == 0
    ensures TotalChars(cs + [c]) == TotalChars(cs) + Chars(c)
    ensures EstimateTokens(cs) <= EstimateTokens(cs + [c])
  {
    assert (cs + [c])[..|cs|] == cs;
  }

  /** `_estimate_context_tokens`: sums the characters row by row, then divides by 4. */
  method EstimateContextTokens(cs: seq<Conversation>) returns (tokens: nat)
    ensures tokens == EstimateTokens(cs)
  {
    var total := 0;
    var i := 0;
    while i < |cs|
      invariant 0 <= i <= |cs|
      invariant total == TotalChars(cs[..i])
    {
      assert cs[..i + 1][..i] == cs[..i];
      if cs[i].contextSnapshot.Some? {
        total := total + |cs[i].contextSnapshot.value|;
      }
      if cs[i].response.Some? {
        total := total + |cs[i].response.value|;
      }
      i := i + 1;
    }
    assert cs[..i] == cs;
    tokens := total / 4;
  }

  // ---------------------------------------------------------------------
  // The status view's numbers
  // ---------------------------------------------------------------------

  /** Messages until the next 25-message checkpoint. */
  function NextAutoCheckpoint(count: nat): (r: nat)
    ensures 1 <= r <= AUTO_CHECKPOINT_MESSAGE_COUNT
    ensures (count + r) % AUTO_CHECKPOINT_MESSAGE_COUNT == 0
  {
    AUTO_CHECKPOINT_MESSAGE_COUNT - count % AUTO_CHECKPOINT_MESSAGE_COUNT
  }

  /** Below the size threshold, the announced distance is exactly the number of
      further messages after which the trigger first fires. */
  lemma {:induction false} NextAutoCheckpointIsNextTrigger(count: nat, tokens: int)
    requires tokens <= AUTO_CHECKPOINT_SIZE_THRESHOLD
    ensures ShouldAutoCheckpoint(count + NextAutoCheckpoint(count), tokens)
    ensures forall m :: count < m < count + NextAutoCheckpoint(count) ==> !ShouldAutoCheckpoint(m, tokens)
  {
    var r := NextAutoCheckpoint(count);
    forall m | count < m < count + r ensures !ShouldAutoCheckpoint(m, tokens) {
      assert m == (count / 25) * 25 + (count % 25 + (m - count));
      assert 0 < count % 25 + (m - count) < 25;
    }
  }

  datatype Status = Status(
    conversationCount: nat,
    checkpoints: seq<Checkpoint>,
    estimatedTokens: nat,
    nextAutoCheckpoint: nat)

  /** `show_context_status`: every conversation of the project counts, archived or
      not; the estimate covers the 50 newest of them; up to 50 checkpoints, newest first. */
  function StatusOf(t: Tables, pid: Id): (r: Status)
    ensures r.conversationCount == |ConversationsOf(t.conversations, pid)|
    ensures |r.checkpoints| <= STATUS_WINDOW
    ensures forall i :: 0 <= i < |r.checkpoints| ==> r.checkpoints[i] in t.checkpoints && r.checkpoints[i].projectId == pid
    ensures 1 <= r.nextAutoCheckpoint <= AUTO_CHECKPOINT_MESSAGE_COUNT
    ensures r.nextAutoCheckpoint == NextAutoCheckpoint(r.conversationCount)
    ensures (r.conversationCount + r.nextAutoCheckpoint) % AUTO_CHECKPOINT_MESSAGE_COUNT == 0
  {
    var all := ConversationsOf(t.conversations, pid);
    Status(|all|, Newest(CheckpointsOf(t.checkpoints, pid), STATUS_WINDOW),
           EstimateTokens(Newest(all, STATUS_WINDOW)), NextAutoCheckpoint(|all|))
  }

  /** The checkpoints are the project's 50 newest, newest first, and the estimate
      is taken over the project's 50 newest conversations, archived or not. */
  lemma StatusIsNewest(t: Tables, pid: Id)
    requires TablesValid(t)
    ensures NewestFirst(StatusOf(t, pid).checkpoints, CheckpointsOf(t.checkpoints, pid), STATUS_WINDOW, CheckpointStamp())
    ensures var all := ConversationsOf(t.conversations, pid);
      var window := Newest(all, STATUS_WINDOW);
      && StatusOf(t, pid).estimatedTokens == EstimateTokens(window)
      && NewestFirst(window, all, STATUS_WINDOW, ConversationStamp())
  {
    ValidTimestampsIncrease(t);
    FilterKeepsIncreasing(t.checkpoints, (c: Checkpoint) => c.projectId == pid, CheckpointStamp());
    NewestWindow(CheckpointsOf(t.checkpoints, pid), STATUS_WINDOW, CheckpointStamp());
    FilterKeepsIncreasing(t.conversations, OfProject(pid), ConversationStamp());
    NewestWindow(ConversationsOf(t.conversations, pid), STATUS_WINDOW, ConversationStamp());
  }

  /** The status count includes archived rows: it is the non-archived count plus the archived one. */
  lemma StatusCountsArchived(t: Tables, pid: Id)
    ensures StatusOf(t, pid).conversationCount
         == |ActiveConversationsOf(t.conversations, pid)| + |ArchivedConversationsOf(t.conversations, pid)|
  {
    FilterSplitCount(t.conversations, OfProject(pid), (c: Conversation) => !c.archived,
                     ActiveOfProject(pid), ArchivedOfProject(pid));
  }

  // ---------------------------------------------------------------------
  // Checkpoint creation
  // ---------------------------------------------------------------------

  function AutoDescription(count: nat): string {
    "auto-checkpoint at " + NatToString(count) + " messages"
  }

  /** Appending a checkpoint adds exactly one row, for the project, with the given
      description and flag, pointing at the project's newest conversation (archived
      or not), or at 0 when the project has none; no other table changes. */
  lemma AddCheckpointRecordsLatest(t: Tables, pid: Id, description: string, autoCreated: bool)
    requires TablesValid(t)
    ensures var t' := AddCheckpoint(t, pid, description, autoCreated);
      && |t'.checkpoints| == |t.checkpoints| + 1
      && t'.checkpoints[..|t.checkpoints|] == t.checkpoints
      && var cp := t'.checkpoints[|t.checkpoints|];
      && cp.projectId == pid && cp.description == description && cp.autoCreated == autoCreated
      && (cp.messageId == 0 <==> forall k :: 0 <= k < |t.conversations| ==> t.conversations[k].projectId != pid)
      && (forall c :: c in t.conversations && c.projectId == pid ==> c.id <= cp.messageId)
      && (cp.messageId != 0 ==> HasConversation(t.conversations, pid, cp.messageId))
      && t'.conversations == t.conversations && t'.decisions == t.decisions
      && t'.files == t.files && t'.projects == t.projects
  {
    LatestConversationIsNewest(t, pid);
  }

  // ---------------------------------------------------------------------
  // Reset
  // ---------------------------------------------------------------------

  /** `"latest"` is the project's newest checkpoint; anything else is the first
      checkpoint of the project with exactly that description. */
  function ResolveCheckpoint(cps: seq<Checkpoint>, pid: Id, identifier: string): (r: Option<Checkpoint>)
    ensures r.Some? ==> r.value in cps && r.value.projectId == pid
    ensures identifier == LATEST ==> (r.None? <==> forall i :: 0 <= i < |cps| ==> cps[i].projectId != pid)
    ensures identifier != LATEST ==> (r.Some? ==> r.value.description == identifier)
    ensures identifier != LATEST ==>
      (r.None? <==> forall i :: 0 <= i < |cps| ==> !(cps[i].projectId == pid && cps[i].description == identifier))
  {
    var found :=
      if identifier == LATEST then LastWhere(cps, (c: Checkpoint) => c.projectId == pid)
      else FirstWhere(cps, (c: Checkpoint) => c.projectId == pid && c.description == identifier);
    match found
    case None => None
    case Some(k) => Some(cps[k])
  }

  /** `"latest"` picks the checkpoint with the greatest timestamp; a description
      picks the oldest checkpoint carrying it. */
  lemma ResolveCheckpointOrder(t: Tables, pid: Id, identifier: string)
    requires TablesValid(t)
    ensures var r := ResolveCheckpoint(t.checkpoints, pid, identifier);
      r.Some? ==> forall c :: c in t.checkpoints && c.projectId == pid ==>
        (if identifier == LATEST then c.timestamp <= r.value.timestamp
         else c.description == identifier ==> r.value.timestamp <= c.timestamp)
  {
    var cps := t.checkpoints;
    var r := ResolveCheckpoint(cps, pid, identifier);
    if r.Some? {
      forall c | c in cps && c.projectId == pid
        ensures if identifier == LATEST then c.timestamp <= r.value.timestamp
                else c.description == identifier ==> r.value.timestamp <= c.timestamp
      {
        var j :| 0 <= j < |cps| && cps[j] == c;
        if identifier == LATEST {
          var k := LastWhere(cps, (c: Checkpoint) => c.projectId == pid).value;
          assert r.value == cps[k];
          assert j <= k;
        } else {
          var k := FirstWhere(cps, (c: Checkpoint) => c.projectId == pid && c.description == identifier).value;
          assert r.value == cps[k];
        }
      }
    }
  }

  /** The rows a reset to a checkpoint referencing `mid` touches. */
  function After(pid: Id, mid: int): Conversation -> bool {
    (c: Conversation) => c.projectId == pid && c.id > mid
  }

  function ArchiveRow(c: Conversation, pid: Id, mid: int): Conversation {
    if c.projectId == pid && c.id > mid then c.(archived := true) else c
  }

  /** Every conversation of the project with an id above `mid` becomes archived;
      nothing else about any row changes. */
  function ArchiveAfter(cs: seq<Conversation>, pid: Id, mid: int): (r: seq<Conversation>)
    ensures |r| == |cs|
    ensures forall i :: 0 <= i < |cs| ==>
      r[i].archived == (cs[i].archived || After(pid, mid)(cs[i])) && r[i].(archived := cs[i].archived) == cs[i]
    ensures forall i :: 0 <= i < |cs| ==>
      r[i].id == cs[i].id && r[i].projectId == cs[i].projectId && r[i].timestamp == cs[i].timestamp
  {
    if cs == [] then [] else [ArchiveRow(cs[0], pid, mid)] + ArchiveAfter(cs[1..], pid, mid)
  }

  /** Archiving again changes nothing, and leaves the set of touched rows the same. */
  lemma {:induction false} ArchiveAfterIdempotent(cs: seq<Conversation>, pid: Id, mid: int)
    ensures ArchiveAfter(ArchiveAfter(cs, pid, mid), pid, mid) == ArchiveAfter(cs, pid, mid)
    ensures |Filter(ArchiveAfter(cs, pid, mid), After(pid, mid))| == |Filter(cs, After(pid, mid))|
  {
    if cs != [] {
      var a := ArchiveAfter(cs, pid, mid);
      assert a[1..] == ArchiveAfter(cs[1..], pid, mid);
      ArchiveAfterIdempotent(cs[1..], pid, mid);
    }
  }

  lemma ArchiveAfterValid(t: Tables, pid: Id, mid: int)
    requires TablesValid(t)
    ensures TablesValid(t.(conversations := ArchiveAfter(t.conversations, pid, mid)))
  {
    var cs := ArchiveAfter(t.conversations, pid, mid);
    assert ConversationsValid(cs, t.projects, t.nextConversationId, t.clock) by {
      forall i | 0 <= i < |cs| ensures ConversationFits(cs[i]) {
        assert cs[i].command == t.conversations[i].command by {
          assert cs[i].(archived := t.conversations[i].archived) == t.conversations[i];
        }
      }
    }
    forall i | 0 <= i < |t.checkpoints| && t.checkpoints[i].messageId != 0
      ensures HasConversation(cs, t.checkpoints[i].projectId, t.checkpoints[i].messageId)
    {
      var cp := t.checkpoints[i];
      var k :| 0 <= k < |t.conversations| && t.conversations[k].projectId == cp.projectId
               && t.conversations[k].id == cp.messageId;
      assert cs[k].id == t.conversations[k].id;
    }
  }

  /** The reset's loop: sets `archived` on each row after the checkpoint and counts them. */
  method ArchiveConversationsAfter(cs0: seq<Conversation>, pid: Id, mid: int)
    returns (cs: seq<Conversation>, matched: nat)
    ensures cs == ArchiveAfter(cs0, pid, mid)
    ensures matched == |Filter(cs0, After(pid, mid))|
  {
    cs := cs0;
    matched := 0;
    var i := 0;
    while i < |cs0|
      invariant 0 <= i <= |cs0| && |cs| == |cs0|
      invariant forall k :: 0 <= k < i ==> cs[k] == ArchiveRow(cs0[k], pid, mid)
      invariant forall k :: i <= k < |cs0| ==> cs[k] == cs0[k]
      invariant matched == |Filter(cs0[..i], After(pid, mid))|
    {
      FilterStep(cs0, i, After(pid, mid));
      ghost var before := cs;
      if cs0[i].projectId == pid && cs0[i].id > mid {
        cs := cs[i := cs0[i].(archived := true)];
        matched := matched + 1;
      }
      assert cs == before[i := ArchiveRow(cs0[i], pid, mid)];
      i := i + 1;
    }
    assert cs0[..i] == cs0;
    ArchiveAfterRows(cs0, pid, mid);
  }

  /** Row by row, archiving is `ArchiveRow`. */
  lemma ArchiveAfterRows(cs: seq<Conversation>, pid: Id, mid: int)
    ensures forall i :: 0 <= i < |cs| ==> ArchiveAfter(cs, pid, mid)[i] == ArchiveRow(cs[i], pid, mid)
  {
    var r := ArchiveAfter(cs, pid, mid);
    forall i | 0 <= i < |cs| ensures r[i] == ArchiveRow(cs[i], pid, mid) {
      assert r[i] == cs[i].(archived := r[i].archived);
    }
  }

  datatype ResetOutcome = ResetOutcome(tables: Tables, ok: bool, reported: nat)

  /** `reset_to_checkpoint` for the project `pid`: no checkpoint found means false
      and no change; otherwise every later conversation of the project is archived
      and the number of rows the query returned (archived or not) is reported. */
  function ResetEffect(t: Tables, pid: Id, identifier: string): ResetOutcome {
    match ResolveCheckpoint(t.checkpoints, pid, identifier)
    case None => ResetOutcome(t, false, 0)
    case Some(cp) =>
      ResetOutcome(t.(conversations := ArchiveAfter(t.conversations, pid, cp.messageId)), true,
                   |Filter(t.conversations, After(pid, cp.messageId))|)
  }

  /** After a successful reset to checkpoint `cp`, exactly the project's
      conversations with ids above `cp.message_id` are archived in addition to
      those archived before; rows, their order and every other table are kept. */
  lemma ResetArchivesLaterConversations(t: Tables, pid: Id, identifier: string)
    requires TablesValid(t)
    ensures var o := ResetEffect(t, pid, identifier);
      var cp := ResolveCheckpoint(t.checkpoints, pid, identifier);
      && TablesValid(o.tables)
      && (o.ok <==> cp.Some?)
      && (!o.ok ==> o.tables == t && o.reported == 0)
      && (o.ok ==>
           && o.tables.(conversations := t.conversations) == t
           && |o.tables.conversations| == |t.conversations|
           && forall i :: 0 <= i < |t.conversations| ==>
                var c := t.conversations[i];
                o.tables.conversations[i].(archived := c.archived) == c
                && (c.projectId == pid && c.id > cp.value.messageId ==> o.tables.conversations[i].archived)
                && (!(c.projectId == pid && c.id > cp.value.messageId) ==> o.tables.conversations[i] == c))
  {
    var cp := ResolveCheckpoint(t.checkpoints, pid, identifier);
    if cp.Some? {
      ArchiveAfterValid(t, pid, cp.value.messageId);
    }
  }

  /** Resetting twice to the same checkpoint leaves the state of the first reset,
      and reports the same (non-archived-filtered) count again. */
  lemma ResetIdempotent(t: Tables, pid: Id, identifier: string)
    ensures var o1 := ResetEffect(t, pid, identifier);
      var o2 := ResetEffect(o1.tables, pid, identifier);
      o2.tables == o1.tables && o2.ok == o1.ok && o2.reported == o1.reported
  {
    var cp := ResolveCheckpoint(t.checkpoints, pid, identifier);
    if cp.Some? {
      ArchiveAfterIdempotent(t.conversations, pid, cp.value.messageId);
    }
  }

  // ---------------------------------------------------------------------
  // The manager object
  // ---------------------------------------------------------------------

  class ContextManager {
    const db: Database
    var current: Option<Project>

    constructor(db: Database)
      ensures this.db == db && current == None
    {
      this.db := db;
      current := None;
    }

    method SetCurrentProject(project: Project)
      modifies this
      ensures current == Some(project)
    {
      current := Some(project);
    }

    /** The numbers behind the status panel; no project gives none. */
    method ShowContextStatus() returns (r: Option<Status>)
      ensures r.None? <==> current.None?
      ensures r.Some? ==> r.value == StatusOf(db.State(), current.value.id)
    {
      if current.None? {
        return None;
      }
      var pid := current.value.id;
      var all := ConversationsOf(db.conversations, pid);
      var tokens := EstimateContextTokens(Newest(all, STATUS_WINDOW));
      r := Some(Status(|all|, Newest(CheckpointsOf(db.checkpoints, pid), STATUS_WINDOW), tokens,
                       NextAutoCheckpoint(|all|)));
    }

    /** A manual checkpoint referencing the newest conversation; false without a
        project or when the store refuses the row. */
    method CreateCheckpoint(description: string) returns (ok: bool)
      requires db.Valid()
      modifies db
      ensures db.Valid()
      ensures ok == (current.Some? && CanAddCheckpoint(old(db.State()), current.value.id, description))
      ensures db.State() == if ok then AddCheckpoint(old(db.State()), current.value.id, description, false)
                            else old(db.State())
    {
      if current.None? {
        return false;
      }
      ok := db.InsertCheckpoint(current.value.id, description, false);
    }

    /** An automatic checkpoint described by the project's non-archived count. */
    method CreateAutoCheckpoint() returns (ok: bool)
      requires db.Valid()
      modifies db
      ensures db.Valid()
      ensures ok == (current.Some? && CanAddCheckpoint(old(db.State()), current.value.id,
                       AutoDescription(|ActiveConversationsOf(old(db.conversations), current.value.id)|)))
      ensures db.State() == if ok then AddCheckpoint(old(db.State()), current.value.id,
                                         AutoDescription(|ActiveConversationsOf(old(db.conversations), current.value.id)|), true)
                            else old(db.State())
    {
      if current.None? {
        return false;
      }
      var count := |ActiveConversationsOf(db.conversations, current.value.id)|;
      ok := db.InsertCheckpoint(current.value.id, AutoDescription(count), true);
    }

    /** Resolves the checkpoint, then archives the later conversations one row at a time. */
    method ResetToCheckpoint(identifier: string) returns (ok: bool, reported: nat)
      requires db.Valid()
      modifies db
      ensures db.Valid()
      ensures current.None? ==> !ok && reported == 0 && db.State() == old(db.State())
      ensures current.Some? ==>
        ResetOutcome(db.State(), ok, reported) == ResetEffect(old(db.State()), current.value.id, identifier)
    {
      if current.None? {
        return false, 0;
      }
      var pid := current.value.id;
      var cp := ResolveCheckpoint(db.checkpoints, pid, identifier);
      if cp.None? {
        return false, 0;
      }
      var mid := cp.value.messageId;
      var t := db.State();
      ArchiveAfterValid(t, pid, mid);
      var cs;
      cs, reported := ArchiveConversationsAfter(t.conversations, pid, mid);
      db.conversations := cs;
      assert db.State() == t.(conversations := cs);
      ok := true;
    }
  }
}
