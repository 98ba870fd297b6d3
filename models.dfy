/** The five persisted record types and their column rules: non-null columns are
    plain (non-Option) fields, nullable text columns are `Option`s, `String(n)`
    columns carry a length ceiling that an insert or update must respect, and the
    column defaults are applied by the `New...` constructors below. Timestamps are
    values of a logical clock that the store advances on every write. */
module Models {
  import opened Wrappers

  /** Serial primary keys start at 1, so 0 never names a row. */
  type Id = nat
  type Timestamp = nat

  predicate IsHexDigit(c: char) { '0' <= c <= '9' || 'a' <= c <= 'f' }

  /** A SHA-256 digest as `hexdigest()` prints it: 64 lower-case hex digits. */
  type Digest = s: string | |s| == 64 && forall i | 0 <= i < |s| :: IsHexDigit(s[i])
    witness seq(64, _ => '0')

  const ACTIVE := "active"

  // `String(n)` ceilings of the schema.
  const NAME_LENGTH := 255
  const PROJECT_PATH_LENGTH := 1024
  const STATUS_LENGTH := 50
  const COMMAND_LENGTH := 1024
  const CATEGORY_LENGTH := 100
  const FILE_PATH_LENGTH := 1024
  const DESCRIPTION_LENGTH := 255

  /** `name` is unique and non-null; `status` defaults to 'active'. */
  datatype Project = Project(
    id: Id, name: string, path: string,
    createdAt: Timestamp, lastActive: Timestamp, status: string)

  /** `archived` defaults to false; snapshot and response are nullable. */
  datatype Conversation = Conversation(
    id: Id, projectId: Id, timestamp: Timestamp, command: string,
    contextSnapshot: Option<string>, response: Option<string>, archived: bool)

  /** `decision` is non-null; `category` is passed as "general" unless the caller says otherwise. */
  datatype Decision = Decision(
    id: Id, projectId: Id, category: string, decision: string,
    reasoning: Option<string>, timestamp: Timestamp)

  /** No uniqueness on (project_id, path): the tracker queries before it inserts. */
  datatype FileTracked = FileTracked(
    id: Id, projectId: Id, path: string, hash: Digest,
    lastAnalyzed: Timestamp, insights: Option<string>)

  /** `message_id` is a plain integer (no foreign key), so 0 can mean "before any
      conversation"; `auto_created` defaults to false. */
  datatype Checkpoint = Checkpoint(
    id: Id, projectId: Id, messageId: int, description: string,
    timestamp: Timestamp, autoCreated: bool)

  predicate ProjectFits(p: Project) {
    |p.name| <= NAME_LENGTH && |p.path| <= PROJECT_PATH_LENGTH && |p.status| <= STATUS_LENGTH
  }

  predicate ConversationFits(c: Conversation) { |c.command| <= COMMAND_LENGTH }

  predicate DecisionFits(d: Decision) { |d.category| <= CATEGORY_LENGTH }

  predicate FileFits(f: FileTracked) { |f.path| <= FILE_PATH_LENGTH }

  predicate CheckpointFits(c: Checkpoint) { |c.description| <= DESCRIPTION_LENGTH }

  // Rows as the application creates them, column defaults filled in.

  function NewProject(id: Id, name: string, path: string, now: Timestamp): Project {
    Project(id, name, path, now, now, ACTIVE)
  }

  function NewConversation(id: Id, projectId: Id, now: Timestamp, command: string,
                           snapshot: Option<string>, response: Option<string>): Conversation {
    Conversation(id, projectId, now, command, snapshot, response, false)
  }

  function NewCheckpoint(id: Id, projectId: Id, messageId: int, description: string,
                         now: Timestamp, autoCreated: bool): Checkpoint {
    Checkpoint(id, projectId, messageId, description, now, autoCreated)
  }
}
