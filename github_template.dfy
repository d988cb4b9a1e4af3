/** `generateIssueTemplate` of the GitHub helper: the issue body built by
    successive appends, with the error and the additional context as
    optional sections. */
module GithubTemplate {
  import opened Common
  import opened PlaygroundTypes
  import opened IssueText

  /** The helper cuts each excerpt line at this many characters. */
  const CONTENT_LIMIT: nat := 300

  /** The template's input; `error` and `additionalContext` are optional. */
  datatype TemplateData = TemplateData(
    config: IssueConfig,
    conversation: seq<ChatMessage>,
    error: Option<string>,
    additionalContext: Option<string>
  )

  /** An optional string that JavaScript treats as true: present and not
      empty. */
  predicate Truthy(s: Option<string>) {
    s.Some? && s.value != ""
  }

  /** The sections the template writes: the error and the additional
      context only when given. */
  function TemplateSections(d: TemplateData): seq<Section> {
    [Context]
    + (if Truthy(d.error) then [ErrorSection] else [])
    + [Configuration]
    + (if Truthy(d.additionalContext) then [Additional] else [])
    + [Footer]
  }

  /** The text each `template +=` appends. */
  function SectionText(d: TemplateData, s: Section): string {
    match s
    case Context => Head(d.config, Excerpt(d.conversation, CONTENT_LIMIT))
    case ErrorSection => "\n" + ErrorBlock(d.error.GetOr("")) + "\n"
    case Configuration => "\n" + ConfigurationBlock(d.config)
    case Additional => "\n## Contexto Adicional\n\n" + d.additionalContext.GetOr("") + "\n"
    case Footer => "\n---\n\n" + FOOTER_LINE
  }

  function TextOf(d: TemplateData): Section -> string {
    (s: Section) => SectionText(d, s)
  }

  function Template(d: TemplateData): string {
    Render(TemplateSections(d), TextOf(d))
  }

  /** One `template += ...` step. */
  method Append(d: TemplateData, template: string, ghost written: seq<Section>, s: Section)
    returns (r: string)
    requires template == Render(written, TextOf(d))
    ensures r == Render(written + [s], TextOf(d))
  {
    RenderAppend(written, s, TextOf(d));
    r := template + SectionText(d, s);
  }

  /** `generateIssueTemplate`: the opening literal, then each optional and
      fixed section appended in turn. */
  method GenerateIssueTemplate(d: TemplateData) returns (template: string)
    ensures template == Template(d)
  {
    ghost var errs: seq<Section> := if Truthy(d.error) then [ErrorSection] else [];
    ghost var adds: seq<Section> := if Truthy(d.additionalContext) then [Additional] else [];
    ghost var written: seq<Section> := [Context];
    template := Append(d, "", [], Context);
    assert [] + [Context] == written;
    if Truthy(d.error) {
      template := Append(d, template, written, ErrorSection);
    } else {
      assert written + errs == written;
    }
    written := written + errs;
    template := Append(d, template, written, Configuration);
    written := written + [Configuration];
    if Truthy(d.additionalContext) {
      template := Append(d, template, written, Additional);
    } else {
      assert written + adds == written;
    }
    written := written + adds;
    template := Append(d, template, written, Footer);
    written := written + [Footer];
  }

  /** The sections come in their fixed order; the error section is there
      exactly when an error is given and the additional context section
      exactly when a context is given. */
  lemma TemplateSectionsShape(d: TemplateData)
    ensures var ss := TemplateSections(d);
      && WellOrdered(ss)
      && (ErrorSection in ss <==> Truthy(d.error))
      && (Additional in ss <==> Truthy(d.additionalContext))
      && Configuration in ss
  {
    var ss := TemplateSections(d);
    var e := if Truthy(d.error) then [ErrorSection] else [];
    var a := if Truthy(d.additionalContext) then [Additional] else [];
    assert ss == [Context] + e + [Configuration] + a + [Footer];
    assert ss[1 + |e|] == Configuration;
    forall i, j | 0 <= i < j < |ss| ensures Rank(ss[i]) < Rank(ss[j]) {
      assert Rank(ss[i]) <= i + (if i > 0 && e == [] then 1 else 0) + (if i > 1 + |e| && a == [] then 1 else 0);
    }
  }

  /** The template opens with the context heading and closes with the
      footer line. */
  lemma TemplateEnds(d: TemplateData)
    ensures StartsWith(Template(d), CONTEXT_HEADING)
    ensures EndsWith(Template(d), FOOTER_LINE)
  {
    var ss := TemplateSections(d);
    RenderEnds(ss, TextOf(d));
    assert ss[0] == Context && ss[|ss| - 1] == Footer;
    StartsWithShorter(Template(d), SectionText(d, Context), CONTEXT_HEADING);
    EndsWithConcat("\n---\n\n", FOOTER_LINE);
    EndsWithShorter(Template(d), SectionText(d, Footer), FOOTER_LINE);
  }

  /** The error section quotes the given error; an empty prompt is shown
      as `(vazio)`. */
  lemma TemplateShowsFields(d: TemplateData)
    ensures Truthy(d.error) ==> SectionText(d, ErrorSection) == "\n" + ErrorBlock(d.error.value) + "\n"
    ensures d.config.systemPrompt == "" ==> ShownPrompt(d.config.systemPrompt) == "(vazio)"
  {
  }
}
