/** The Markdown issue bodies the playground files on GitHub. Two
    templates exist, one in the create-issue dialog and one in the GitHub
    helper; they share their sections and differ in which sections are
    optional and where the line breaks fall. This module holds what they
    share: the conversation excerpt, the common section texts, and bodies
    as a sequence of sections. */
module IssueText {
  import opened Common
  import opened PlaygroundTypes

  /** `{ role, content }`, one conversation entry. */
  type Entry = ChatMessage

  /** The configuration an issue describes. The temperature and both
      contexts arrive as their text (`${temperature}` and
      `JSON.stringify(context, null, 2)`). */
  datatype IssueConfig = IssueConfig(
    agentIdentifier: string,
    model: string,
    temperatureText: string,
    systemPrompt: string,
    patientJson: string,
    crmJson: string
  )

  /** The excerpt keeps this many of the latest entries (`slice(-6)`). */
  const EXCERPT_ENTRIES: nat := 6

  /** `role === "user" ? "Usuário" : "Agente"` */
  function RoleLabel(role: string): (l: string)
    ensures l == "Usu\U{00E1}rio" <==> role == "user"
    ensures l == "Agente" <==> role != "user"
  {
    if role == "user" then "Usu\U{00E1}rio" else "Agente"
  }

  /** `content.slice(0, limit)` followed by `"..."` when something was cut. */
  function Cut(content: string, limit: nat): (r: string)
    ensures |content| <= limit ==> r == content
    ensures |content| > limit ==> |r| == limit + 3 && r[..limit] == content[..limit] && r[limit..] == "..."
  {
    if |content| > limit then content[..limit] + "..." else content
  }

  /** `**<role>:** <content>` */
  function EntryLine(e: Entry, limit: nat): string {
    "**" + RoleLabel(e.role) + ":** " + Cut(e.content, limit)
  }

  function EntryLines(entries: seq<Entry>, limit: nat): (lines: seq<string>)
    ensures |lines| == |entries|
    ensures forall i :: 0 <= i < |entries| ==> lines[i] == EntryLine(entries[i], limit)
  {
    if entries == [] then [] else [EntryLine(entries[0], limit)] + EntryLines(entries[1..], limit)
  }

  /** The lines of the conversation excerpt, before they are joined with a
      blank line between them. */
  function ExcerptLines(entries: seq<Entry>, limit: nat): seq<string> {
    EntryLines(LastN(entries, EXCERPT_ENTRIES), limit)
  }

  function Excerpt(entries: seq<Entry>, limit: nat): string {
    Join(ExcerptLines(entries, limit), "\n\n")
  }

  /** The excerpt covers the last `min(6, n)` entries in their order, one
      line each, labelled by role, the content cut at the limit. */
  lemma ExcerptCovers(entries: seq<Entry>, limit: nat, i: nat)
    requires i < |ExcerptLines(entries, limit)|
    ensures var lines := ExcerptLines(entries, limit);
      var e := entries[|entries| - |lines| + i];
      && |lines| == (if |entries| < EXCERPT_ENTRIES then |entries| else EXCERPT_ENTRIES)
      && lines[i] == EntryLine(e, limit)
  {
    LastNAt(entries, EXCERPT_ENTRIES, i);
  }

  /** A cut content is the start of the real one: nothing is changed, only
      dropped and marked. */
  lemma CutIsPrefix(content: string, limit: nat)
    ensures var r := Cut(content, limit);
      (r == content) || (StartsWith(content, r[..|r| - 3]) && EndsWith(r, "..."))
  {
  }

  /** `config.systemPrompt || "(vazio)"` */
  function ShownPrompt(systemPrompt: string): (s: string)
    ensures s != ""
    ensures systemPrompt != "" ==> s == systemPrompt
  {
    if systemPrompt == "" then "(vazio)" else systemPrompt
  }

  /** The heading line that opens every issue. */
  const CONTEXT_HEADING: string := "## Contexto"

  /** The line that closes every issue. */
  const FOOTER_LINE: string := "*Issue criada automaticamente pelo AI Agents Dashboard*\n"

  /** The context block and the conversation excerpt, up to the line break
      after the excerpt. */
  function Head(c: IssueConfig, excerpt: string): (h: string)
    ensures StartsWith(h, CONTEXT_HEADING)
  {
    var rest := "\n\n**Agente:** `" + c.agentIdentifier + "`\n**Modelo:** `" + c.model
      + "`\n**Temperature:** `" + c.temperatureText
      + "`\n\n## Conversa (\U{00FA}ltimas mensagens)\n\n" + excerpt + "\n";
    StartsWithConcat(CONTEXT_HEADING, rest);
    CONTEXT_HEADING + rest
  }

  /** The fenced error, without the line breaks around it. */
  function ErrorBlock(error: string): string {
    "## Erro Observado\n\n```\n" + error + "\n```"
  }

  /** The configuration section: the prompt and both contexts, each in a
      collapsed block. */
  function ConfigurationBlock(c: IssueConfig): string {
    "## Configura\U{00E7}\U{00E3}o\n\n<details>\n<summary>System Prompt</summary>\n\n```\n"
    + ShownPrompt(c.systemPrompt)
    + "\n```\n\n</details>\n\n<details>\n<summary>Patient Context</summary>\n\n```json\n"
    + c.patientJson
    + "\n```\n\n</details>\n\n<details>\n<summary>CRM Context</summary>\n\n```json\n"
    + c.crmJson
    + "\n```\n\n</details>\n"
  }

  // ---------------------------------------------------------------------
  // Bodies as sections

  /** The sections of an issue, in the order they are written. */
  datatype Section = Context | ErrorSection | Configuration | Additional | Footer

  function Rank(s: Section): nat {
    match s
    case Context => 0
    case ErrorSection => 1
    case Configuration => 2
    case Additional => 3
    case Footer => 4
  }

  /** Sections in their fixed order, each at most once, opening with the
      context and closing with the footer. */
  predicate WellOrdered(sections: seq<Section>) {
    && |sections| >= 2
    && sections[0] == Context
    && sections[|sections| - 1] == Footer
    && forall i, j :: 0 <= i < j < |sections| ==> Rank(sections[i]) < Rank(sections[j])
  }

  /** The body made of the sections' texts, one after the other. */
  function Render(sections: seq<Section>, text: Section -> string): string {
    if sections == [] then "" else text(sections[0]) + Render(sections[1..], text)
  }

  lemma {:induction false} RenderAppend(sections: seq<Section>, s: Section, text: Section -> string)
    ensures Render(sections + [s], text) == Render(sections, text) + text(s)
    decreases |sections|
  {
    if sections == [] {
      assert [] + [s] == [s];
    } else {
      assert (sections + [s])[1..] == sections[1..] + [s];
      RenderAppend(sections[1..], s, text);
    }
  }

  /** A body opens with its first section and closes with its last. */
  lemma {:induction false} RenderEnds(sections: seq<Section>, text: Section -> string)
    requires sections != []
    ensures StartsWith(Render(sections, text), text(sections[0]))
    ensures EndsWith(Render(sections, text), text(sections[|sections| - 1]))
    decreases |sections|
  {
    StartsWithConcat(text(sections[0]), Render(sections[1..], text));
    if |sections| == 1 {
      assert Render(sections, text) == text(sections[0]) + "";
    } else {
      RenderEnds(sections[1..], text);
      var tail := Render(sections[1..], text);
      var last := text(sections[|sections| - 1]);
      assert EndsWith(tail, last);
      EndsWithExtend(text(sections[0]), tail, last);
    }
  }

  lemma StartsWithExtend(a: string, b: string, p: string)
    requires StartsWith(a, p)
    ensures StartsWith(a + b, p)
  {
    assert (a + b)[..|p|] == a[..|p|];
  }

  lemma EndsWithExtend(a: string, b: string, p: string)
    requires EndsWith(b, p)
    ensures EndsWith(a + b, p)
  {
    assert (a + b)[|a + b| - |p|..] == b[|b| - |p|..];
  }
}
