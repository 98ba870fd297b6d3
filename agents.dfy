/** Agents: a personality read from a markdown file, and the manager that picks
    one for a command. The parser walks the file's lines, opening a section at
    one of four known `## ...` headers, closing it at any other `##` line, and
    storing each closed section's non-blank lines joined by newlines and
    stripped into the matching field. */
module Agents {
  import opened Wrappers
  import opened Seqs
  import opened Strings

  /** The four sections an agent file may define. */
  datatype Section = Role | Personality | ResponseStyle | Specialties

  /** The header that opens a section; matched as a prefix of the line. */
  function HeaderText(s: Section): (r: string)
    ensures StartsWith(r, "##")
  {
    match s
    case Role => "## Role"
    case Personality => "## Personality"
    case ResponseStyle => "## Response Style"
    case Specialties => "## Specialties"
  }

  /** The section a line opens, if any. No header is a prefix of another, so at
      most one section matches. */
  function Header(line: string): (r: Option<Section>)
    ensures forall s :: r == Some(s) <==> StartsWith(line, HeaderText(s))
  {
    HeadersDistinct(line);
    if StartsWith(line, "## Role") then Some(Role)
    else if StartsWith(line, "## Personality") then Some(Personality)
    else if StartsWith(line, "## Response Style") then Some(ResponseStyle)
    else if StartsWith(line, "## Specialties") then Some(Specialties)
    else None
  }

  /** The headers differ at their fourth or fifth character. */
  lemma HeadersDistinct(line: string)
    ensures forall s, t :: StartsWith(line, HeaderText(s)) && StartsWith(line, HeaderText(t)) ==> s == t
  {
    forall s, t | StartsWith(line, HeaderText(s)) && StartsWith(line, HeaderText(t)) ensures s == t {
      assert line[3] == HeaderText(s)[3] == HeaderText(t)[3];
      assert line[4] == HeaderText(s)[4] == HeaderText(t)[4];
    }
  }

  /** Every header line is also a `##` line. */
  lemma HeaderIsHeading(line: string)
    ensures Header(line).Some? ==> StartsWith(line, "##")
  {
    if Header(line).Some? {
      var h := HeaderText(Header(line).value);
      assert line[..|h|][..2] == line[..2];
    }
  }

  /** A line that does not start with `#` is neither a header nor a heading. */
  lemma PlainLine(line: string)
    requires line == [] || line[0] != '#'
    ensures !StartsWith(line, "##") && Header(line).None?
  {
    if line != [] {
      assert "##"[0] == '#';
      forall s ensures !StartsWith(line, HeaderText(s)) {
        assert HeaderText(s)[0] == '#';
      }
    }
  }

  /** The parsed values of the four section fields. */
  datatype Fields = Fields(role: string, personality: string, responseStyle: string, specialties: string)

  /** What an agent's fields hold before any section is stored. */
  const NO_FIELDS := Fields("", "", "", "")

  function Field(f: Fields, s: Section): string {
    match s
    case Role => f.role
    case Personality => f.personality
    case ResponseStyle => f.responseStyle
    case Specialties => f.specialties
  }

  /** `_set_section_content`: the field is set to the stripped text, the others are kept. */
  function SetField(f: Fields, s: Section, text: string): (r: Fields)
    ensures Field(r, s) == Strip(text)
    ensures forall o :: o != s ==> Field(r, o) == Field(f, o)
  {
    match s
    case Role => f.(role := Strip(text))
    case Personality => f.(personality := Strip(text))
    case ResponseStyle => f.(responseStyle := Strip(text))
    case Specialties => f.(specialties := Strip(text))
  }

  function NotBlank(line: string): bool { !IsBlank(line) }

  /** The parser's state between lines: the open section, its kept lines, and
      the fields stored so far. */
  datatype Parser = Parser(open: Option<Section>, lines: seq<string>, fields: Fields)

  /** Stores the open section, if any, into its field. */
  function Close(p: Parser): Fields {
    if p.open.Some? then SetField(p.fields, p.open.value, Join(p.lines, "\n")) else p.fields
  }

  /** One iteration of the parser's loop. */
  function Step(p: Parser, line: string): Parser {
    match Header(line)
    case Some(s) => Parser(Some(s), [], p.fields)
    case None =>
      if StartsWith(line, "##") then Parser(None, [], Close(p))
      else if p.open.Some? && NotBlank(line) then p.(lines := p.lines + [line])
      else p
  }

  /** The loop over `lines`, from state `p`. */
  function Run(p: Parser, lines: seq<string>): Parser {
    if lines == [] then p else Step(Run(p, lines[..|lines| - 1]), lines[|lines| - 1])
  }

  /** `_parse_sections` over the lines of a file: the loop, then the section
      still open at the end is stored. */
  function ParseLines(lines: seq<string>, init: Fields): Fields {
    Close(Run(Parser(None, [], init), lines))
  }

  function ParseContent(content: string, init: Fields): Fields {
    ParseLines(Split(content, '\n', -1), init)
  }

  // ---------------------------------------------------------------------
  // What the parser does, line by line
  // ---------------------------------------------------------------------

  /** A known header is matched as a prefix: `## Roles` opens the role section. */
  lemma RolesOpensRole()
    ensures Header("## Roles") == Some(Role)
    ensures Header("## Role") == Some(Role)
    ensures Header("### Role") == None
  {
    assert StartsWith("## Roles", HeaderText(Role));
    assert StartsWith("## Role", HeaderText(Role));
    forall s ensures !StartsWith("### Role", HeaderText(s)) {
      assert HeaderText(s)[2] == ' ' && "### Role"[2] == '#';
    }
  }

  /** Opening a known header discards the open section's lines without storing
      them, and starts the new section empty. */
  lemma OpenLosesSection(p: Parser, line: string, s: Section)
    requires StartsWith(line, HeaderText(s))
    ensures Step(p, line).open == Some(s) && Step(p, line).lines == []
    ensures Step(p, line).fields == p.fields
  {
  }

  /** Any other `##` line (`###` included) stores the open section and leaves
      none open. */
  lemma OtherHeadingCloses(p: Parser, line: string)
    requires StartsWith(line, "##") && Header(line).None?
    ensures Step(p, line) == Parser(None, [], Close(p))
    ensures p.open.Some? ==> Field(Step(p, line).fields, p.open.value) == Strip(Join(p.lines, "\n"))
  {
  }

  /** Blank lines, and every line read while no section is open that is not a
      header, leave the parser as it was. */
  lemma IgnoredLines(p: Parser, line: string)
    requires !StartsWith(line, "##")
    requires IsBlank(line) || p.open.None?
    ensures Step(p, line) == p
  {
    HeaderIsHeading(line);
  }

  // ---------------------------------------------------------------------
  // What the parser computes for a whole file
  // ---------------------------------------------------------------------

  lemma {:induction false} RunAppend(p: Parser, a: seq<string>, b: seq<string>)
    ensures Run(p, a + b) == Run(Run(p, a), b)
    decreases |b|
  {
    if b == [] {
      assert a + b == a;
    } else {
      var b' := b[..|b| - 1];
      assert (a + b)[..|a + b| - 1] == a + b';
      assert (a + b)[|a + b| - 1] == b[|b| - 1];
      RunAppend(p, a, b');
    }
  }

  /** One more line of input is one more step of the loop. */
  lemma RunStep(p: Parser, lines: seq<string>, i: nat)
    requires i < |lines|
    ensures Run(p, lines[..i + 1]) == Step(Run(p, lines[..i]), lines[i])
  {
    assert lines[..i + 1][..i] == lines[..i];
  }

  predicate NoHeading(lines: seq<string>) {
    forall i :: 0 <= i < |lines| ==> !StartsWith(lines[i], "##")
  }

  /** Inside a section, the lines up to the next `##` line are kept exactly when
      they are not blank. */
  lemma {:induction false} BodyAccumulates(p: Parser, body: seq<string>)
    requires p.open.Some? && NoHeading(body)
    ensures Run(p, body) == p.(lines := p.lines + Filter(body, NotBlank))
    decreases |body|
  {
    if body == [] {
      assert p.lines + [] == p.lines;
    } else {
      var body' := body[..|body| - 1];
      var last := body[|body| - 1];
      assert body' + [last] == body;
      var kept := if NotBlank(last) then [last] else [];
      calc {
        Run(p, body);
        Step(Run(p, body'), last);
        == { BodyAccumulates(p, body'); }
        Step(p.(lines := p.lines + Filter(body', NotBlank)), last);
        == { assert !StartsWith(last, "##"); HeaderIsHeading(last); }
        p.(lines := p.lines + Filter(body', NotBlank) + kept);
        == { assert p.lines + Filter(body', NotBlank) + kept == p.lines + (Filter(body', NotBlank) + kept); }
        p.(lines := p.lines + (Filter(body', NotBlank) + kept));
        == { FilterAppend(body', last, NotBlank); }
        p.(lines := p.lines + Filter(body, NotBlank));
      }
    }
  }

  /** No header of section `s` in `lines`: the field of `s` is not written, and
      `s` is not left open. */
  lemma {:induction false} RunKeepsField(p: Parser, lines: seq<string>, s: Section)
    requires p.open != Some(s)
    requires forall i :: 0 <= i < |lines| ==> Header(lines[i]) != Some(s)
    ensures Run(p, lines).open != Some(s)
    ensures Field(Run(p, lines).fields, s) == Field(p.fields, s)
    decreases |lines|
  {
    if lines != [] {
      RunKeepsField(p, lines[..|lines| - 1], s);
    }
  }

  /** A section followed by a line that closes it: its field holds the section's
      non-blank lines, joined and stripped, unless the section is opened again. */
  lemma SectionClosed(pre: seq<string>, h: string, body: seq<string>, c: string, post: seq<string>, init: Fields, s: Section)
    requires Header(h) == Some(s) && NoHeading(body)
    requires StartsWith(c, "##") && Header(c).None?
    requires forall i :: 0 <= i < |post| ==> Header(post[i]) != Some(s)
    ensures Field(ParseLines(pre + [h] + body + [c] + post, init), s) == Strip(Join(Filter(body, NotBlank), "\n"))
  {
    var p0 := Parser(None, [], init);
    var p1 := Run(p0, pre + [h]);
    RunAppend(p0, pre, [h]);
    assert p1 == Step(Run(p0, pre), h) by {
      assert [h][..0] == [];
    }
    BodyAccumulates(p1, body);
    var p2 := Run(p1, body);
    RunAppend(p0, pre + [h], body);
    RunAppend(p0, pre + [h] + body, [c]);
    assert Run(p2, [c]) == Step(p2, c) by {
      assert [c][..0] == [];
    }
    var p3 := Step(p2, c);
    assert p2.lines == Filter(body, NotBlank);
    assert Field(p3.fields, s) == Strip(Join(Filter(body, NotBlank), "\n"));
    RunAppend(p0, pre + [h] + body + [c], post);
    RunKeepsField(p3, post, s);
  }

  /** The section still open at the end of the file is stored the same way. */
  lemma SectionAtEnd(pre: seq<string>, h: string, body: seq<string>, init: Fields, s: Section)
    requires Header(h) == Some(s) && NoHeading(body)
    ensures Field(ParseLines(pre + [h] + body, init), s) == Strip(Join(Filter(body, NotBlank), "\n"))
  {
    var p0 := Parser(None, [], init);
    var p1 := Run(p0, pre + [h]);
    RunAppend(p0, pre, [h]);
    assert p1 == Step(Run(p0, pre), h) by {
      assert [h][..0] == [];
    }
    assert p1.open == Some(s) && p1.lines == [];
    BodyAccumulates(p1, body);
    RunAppend(p0, pre + [h], body);
    var p2 := Run(p0, pre + [h] + body);
    assert p2 == p1.(lines := Filter(body, NotBlank));
    assert Close(p2) == SetField(p1.fields, s, Join(Filter(body, NotBlank), "\n"));
  }

  /** A field whose header never occurs keeps its initial value (`""` for a new agent). */
  lemma UnmatchedFieldKept(lines: seq<string>, init: Fields, s: Section)
    requires forall i :: 0 <= i < |lines| ==> Header(lines[i]) != Some(s)
    ensures Field(ParseLines(lines, init), s) == Field(init, s)
  {
    RunKeepsField(Parser(None, [], init), lines, s);
  }

  /** A value with no leading or trailing whitespace (what `strip` returns). */
  predicate Stripped(v: string) {
    v == [] || (!IsSpace(v[0]) && !IsSpace(v[|v| - 1]))
  }

  predicate AllStripped(f: Fields) {
    Stripped(f.role) && Stripped(f.personality) && Stripped(f.responseStyle) && Stripped(f.specialties)
  }

  lemma CloseKeepsStripped(p: Parser)
    requires AllStripped(p.fields)
    ensures AllStripped(Close(p))
  {
    if p.open.Some? {
      var text := Join(p.lines, "\n");
      assert Stripped(Strip(text));
      match p.open.value
      case Role =>
      case Personality =>
      case ResponseStyle =>
      case Specialties =>
    }
  }

  lemma {:induction false} RunKeepsStripped(p: Parser, lines: seq<string>)
    requires AllStripped(p.fields)
    ensures AllStripped(Run(p, lines).fields)
    decreases |lines|
  {
    if lines != [] {
      var q := Run(p, lines[..|lines| - 1]);
      RunKeepsStripped(p, lines[..|lines| - 1]);
      CloseKeepsStripped(q);
      assert Step(q, lines[|lines| - 1]).fields in {q.fields, Close(q)};
    }
  }

  /** Every field the parser stores is stripped. */
  lemma ParsedFieldsStripped(lines: seq<string>)
    ensures AllStripped(ParseLines(lines, NO_FIELDS))
  {
    var p := Parser(None, [], NO_FIELDS);
    RunKeepsStripped(p, lines);
    CloseKeepsStripped(Run(p, lines));
  }

  lemma RunFour(p: Parser, a: string, b: string, c: string, d: string)
    ensures Run(p, [a, b, c, d]) == Step(Step(Step(Step(p, a), b), c), d)
  {
    assert [a, b, c, d][..3] == [a, b, c];
    assert [a, b, c][..2] == [a, b];
    assert [a, b][..1] == [a];
    assert [a][..0] == [];
    assert Run(p, [a]) == Step(p, a);
    assert Run(p, [a, b]) == Step(Run(p, [a]), b);
    assert Run(p, [a, b, c]) == Step(Run(p, [a, b]), c);
  }

  /** `strip` leaves a string alone that neither starts nor ends with whitespace. */
  lemma StripUnchanged(v: string)
    requires v != [] && !IsSpace(v[0]) && !IsSpace(v[|v| - 1])
    ensures Strip(v) == v
  {
  }

  /** A role section opened and then lost to a personality header. */
  lemma LostSectionExample()
    ensures ParseLines(["## Role", "helper", "## Personality", "kind"], NO_FIELDS) == Fields("", "kind", "", "")
  {
    RunFour(Parser(None, [], NO_FIELDS), "## Role", "helper", "## Personality", "kind");
    RolesOpensRole();
    assert "helper"[0] == 'h' && "kind"[0] == 'k';
    PlainLine("helper");
    PlainLine("kind");
    assert Header("## Personality") == Some(Personality) by {
      assert StartsWith("## Personality", HeaderText(Personality));
    }
    assert NotBlank("kind") by { assert !IsSpace("kind"[0]); }
    StripUnchanged("kind");
    assert Join(["kind"], "\n") == "kind";
  }

  // ---------------------------------------------------------------------
  // The agent object
  // ---------------------------------------------------------------------

  /** The system prompt built from an agent's name and fields. */
  function SystemPrompt(name: string, f: Fields): (r: string)
    ensures StartsWith(r, "You are the " + name + " agent.\n\n" + f.role + "\n\nPersonality: " + f.personality)
    ensures var tail := "\n\nAlways embody this personality and approach in your responses.";
      |tail| <= |r| && r[|r| - |tail|..] == tail
  {
    var head := "You are the " + name + " agent.\n\n" + f.role + "\n\nPersonality: " + f.personality;
    var rest := "\n\nResponse Style: " + f.responseStyle + "\n\nSpecialties: " + f.specialties
      + "\n\nAlways embody this personality and approach in your responses.";
    assert (head + rest)[..|head|] == head;
    head + rest
  }

  class Agent {
    const name: string
    var content: string
    var role: string
    var personality: string
    var responseStyle: string
    var specialties: string

    /** The four section fields. */
    function Sections(): Fields
      reads this
    {
      Fields(role, personality, responseStyle, specialties)
    }

    /** An agent named `name`, from the text of its file (`None` when the file
        cannot be read, which leaves every field empty). */
    constructor (name: string, file: Option<string>)
      ensures this.name == name && content == file.GetOr("")
      ensures Sections() == if file.Some? then ParseContent(file.value, NO_FIELDS) else NO_FIELDS
    {
      this.name := name;
      content := "";
      role, personality, responseStyle, specialties := "", "", "", "";
      new;
      if file.Some? {
        content := file.value;
        ParseSections();
      }
    }

    /** `_set_section_content`. */
    method SetSectionContent(s: Section, text: string)
      modifies this
      ensures content == old(content)
      ensures Sections() == SetField(old(Sections()), s, text)
    {
      match s
      case Role => role := Strip(text);
      case Personality => personality := Strip(text);
      case ResponseStyle => responseStyle := Strip(text);
      case Specialties => specialties := Strip(text);
    }

    /** `_parse_sections`: the loop over the content's lines. */
    method ParseSections()
      modifies this
      ensures content == old(content)
      ensures Sections() == ParseContent(content, old(Sections()))
    {
      var lines := Split(content, '\n', -1);
      ghost var init := Sections();
      var open: Option<Section> := None;
      var kept: seq<string> := [];
      for i := 0 to |lines|
        invariant content == old(content)
        invariant Parser(open, kept, Sections()) == Run(Parser(None, [], init), lines[..i])
      {
        var line := lines[i];
        ghost var before := Parser(open, kept, Sections());
        RunStep(Parser(None, [], init), lines, i);
        match Header(line) {
          case Some(s) =>
            open, kept := Some(s), [];
          case None =>
            if StartsWith(line, "##") {
              if open.Some? {
                SetSectionContent(open.value, Join(kept, "\n"));
              }
              open, kept := None, [];
            } else if open.Some? && NotBlank(line) {
              kept := kept + [line];
            }
        }
        assert Parser(open, kept, Sections()) == Step(before, line);
      }
      assert lines[..|lines|] == lines;
      if open.Some? {
        SetSectionContent(open.value, Join(kept, "\n"));
      }
    }

    /** `get_system_prompt`. */
    method GetSystemPrompt() returns (r: string)
      ensures r == SystemPrompt(name, Sections())
    {
      r := SystemPrompt(name, Sections());
    }
  }

  // ---------------------------------------------------------------------
  // Choosing an agent
  // ---------------------------------------------------------------------

  const DEFAULT_AGENT := "partner"

  /** The command-line mode flags the selection looks at; an absent flag is false. */
  datatype ModeFlags = ModeFlags(debug: bool, explain: bool, manager: bool, code: bool)

  /** The agent name a set of flags asks for. */
  function AgentNameForFlags(flags: ModeFlags): string {
    if flags.debug then "debug"
    else if flags.explain then "professor"
    else if flags.manager then "manager"
    else if flags.code then "code"
    else DEFAULT_AGENT
  }

  /** The priority order: a higher flag decides whatever the lower ones say. */
  lemma FlagPriority(flags: ModeFlags)
    ensures flags.debug ==> AgentNameForFlags(flags) == "debug"
    ensures !flags.debug && flags.explain ==> AgentNameForFlags(flags) == "professor"
    ensures !flags.debug && !flags.explain && flags.manager ==> AgentNameForFlags(flags) == "manager"
    ensures !flags.debug && !flags.explain && !flags.manager && flags.code ==> AgentNameForFlags(flags) == "code"
    ensures !(flags.debug || flags.explain || flags.manager || flags.code) ==> AgentNameForFlags(flags) == "partner"
  {
  }

  /** Flags below the highest one set do not change the choice. */
  lemma LowerFlagsIgnored(a: ModeFlags, b: ModeFlags)
    requires a.debug == b.debug
    requires !a.debug ==> a.explain == b.explain
    requires !a.debug && !a.explain ==> a.manager == b.manager
    requires !a.debug && !a.explain && !a.manager ==> a.code == b.code
    ensures AgentNameForFlags(a) == AgentNameForFlags(b)
  {
  }

  class AgentManager {
    var agents: map<string, Agent>

    /** A manager over the agents found in the agents directory, by file stem. */
    constructor (loaded: map<string, Agent>)
      ensures agents == loaded
    {
      agents := loaded;
    }

    /** `get_agent`: the named agent, else the default one, else none. */
    function GetAgent(name: Option<string>): (r: Option<Agent>)
      reads this
      ensures r.Some? <==> (name.Some? && name.value in agents) || DEFAULT_AGENT in agents
      ensures r.Some? ==> r.value in agents.Values
      ensures name.Some? && name.value in agents ==> r == Some(agents[name.value])
      ensures name.None? || name.value !in agents ==>
        r == if DEFAULT_AGENT in agents then Some(agents[DEFAULT_AGENT]) else None
    {
      var key := name.GetOr(DEFAULT_AGENT);
      if key in agents then Some(agents[key])
      else if DEFAULT_AGENT in agents then Some(agents[DEFAULT_AGENT])
      else None
    }

    /** `select_agent_from_flags`. */
    function SelectAgentFromFlags(flags: ModeFlags): (r: Option<Agent>)
      reads this
      ensures r == GetAgent(Some(AgentNameForFlags(flags)))
      ensures AgentNameForFlags(flags) in agents ==> r == Some(agents[AgentNameForFlags(flags)])
      ensures r.None? <==> AgentNameForFlags(flags) !in agents && DEFAULT_AGENT !in agents
    {
      GetAgent(Some(AgentNameForFlags(flags)))
    }

    /** `list_agents`: every loaded name, once. */
    method ListAgents() returns (r: seq<string>)
      ensures |r| == |agents|
      ensures forall k :: k in agents <==> k in r
      ensures forall i, j :: 0 <= i < j < |r| ==> r[i] != r[j]
    {
      r := [];
      var rest := agents.Keys;
      while rest != {}
        invariant rest <= agents.Keys
        invariant forall k :: k in agents <==> k in r || k in rest
        invariant forall k :: k in r ==> k !in rest
        invariant |r| + |rest| == |agents|
        invariant forall i, j :: 0 <= i < j < |r| ==> r[i] != r[j]
        decreases |rest|
      {
        var k :| k in rest;
        r := r + [k];
        rest := rest - {k};
      }
    }
  }
}
