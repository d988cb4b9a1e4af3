/** The create-issue dialog of the playground: the issue body it writes
    from the session, its tag toggles, and what it sends on create. */
module IssueModal {
  import opened Common
  import opened PlaygroundTypes
  import opened IssueText

  /** The dialog cuts each excerpt line at this many characters. */
  const CONTENT_LIMIT: nat := 200

  /** Shown in place of an empty additional context. */
  const NO_CONTEXT: string := "Nenhum contexto adicional fornecido."

  /** `additionalContext || "Nenhum contexto adicional fornecido."` */
  function ShownContext(additionalContext: string): (s: string)
    ensures s != ""
    ensures additionalContext != "" ==> s == additionalContext
  {
    if additionalContext == "" then NO_CONTEXT else additionalContext
  }

  /** The sections of the dialog's body: the error section only when some
      message carries an error, the additional context always. */
  function BodySections(messages: seq<Message>): seq<Section> {
    [Context] + (if FirstError(messages).Some? then [ErrorSection] else [])
    + [Configuration, Additional, Footer]
  }

  /** The text of each section of `generateIssueBody`. */
  function SectionText(c: IssueConfig, messages: seq<Message>, additionalContext: string, s: Section): string {
    match s
    case Context => Head(c, Excerpt(MapSeq(messages, AsChat), CONTENT_LIMIT))
    case ErrorSection =>
      var first := FirstError(messages);
      if first.Some? then "\n\n" + ErrorBlock(messages[first.value].error.value) else ""
    case Configuration => "\n\n" + ConfigurationBlock(c)
    case Additional => "\n## Contexto Adicional\n\n" + ShownContext(additionalContext) + "\n\n"
    case Footer => "---\n\n" + FOOTER_LINE
  }

  /** `generateIssueBody` */
  function IssueBody(c: IssueConfig, messages: seq<Message>, additionalContext: string): string {
    Render(BodySections(messages), (s: Section) => SectionText(c, messages, additionalContext, s))
  }

  /** The body's sections come in their fixed order; the error section is
      there exactly when some message has an error, and the additional
      context section is always there. */
  lemma BodySectionsShape(messages: seq<Message>)
    ensures var ss := BodySections(messages);
      && WellOrdered(ss)
      && (ErrorSection in ss <==> exists i :: 0 <= i < |messages| && HasError(messages[i]))
      && Additional in ss && Configuration in ss
  {
    var ss := BodySections(messages);
    assert ss[|ss| - 3] == Configuration && ss[|ss| - 2] == Additional;
    if ErrorSection !in ss {
      assert ss == [Context, Configuration, Additional, Footer];
    }
  }

  /** The error section quotes the first message with an error. */
  lemma ErrorQuotesFirst(c: IssueConfig, messages: seq<Message>, additionalContext: string, i: nat)
    requires i < |messages| && HasError(messages[i])
    requires forall j :: 0 <= j < i ==> !HasError(messages[j])
    ensures SectionText(c, messages, additionalContext, ErrorSection)
         == "\n\n" + ErrorBlock(messages[i].error.value)
  {
    var f := FirstError(messages);
    assert f.Some?;
    assert f.value == i;
  }

  /** The body opens with the context heading and closes with the footer
      line. */
  lemma IssueBodyEnds(c: IssueConfig, messages: seq<Message>, additionalContext: string)
    ensures StartsWith(IssueBody(c, messages, additionalContext), CONTEXT_HEADING)
    ensures EndsWith(IssueBody(c, messages, additionalContext), FOOTER_LINE)
  {
    var ss := BodySections(messages);
    var text := (s: Section) => SectionText(c, messages, additionalContext, s);
    RenderEnds(ss, text);
    var head := Head(c, Excerpt(MapSeq(messages, AsChat), CONTENT_LIMIT));
    assert text(ss[0]) == head;
    PrefixesNest(IssueBody(c, messages, additionalContext), CONTEXT_HEADING, head);
    StartsWithShorter(IssueBody(c, messages, additionalContext), head, CONTEXT_HEADING);
    assert ss[|ss| - 1] == Footer;
    EndsWithConcat("---\n\n", FOOTER_LINE);
    EndsWithShorter(IssueBody(c, messages, additionalContext), text(Footer), FOOTER_LINE);
  }

  /** An empty additional context shows the fixed sentence; an empty prompt
      shows `(vazio)`. */
  lemma EmptyFieldsShown(c: IssueConfig, messages: seq<Message>)
    ensures SectionText(c, messages, "", Additional) == "\n## Contexto Adicional\n\n" + NO_CONTEXT + "\n\n"
    ensures c.systemPrompt == "" ==> ShownPrompt(c.systemPrompt) == "(vazio)"
  {
  }

  // ---------------------------------------------------------------------
  // Labels

  /** `toggleLabel`: removes the tag if present, otherwise appends it. */
  function Toggled(labels: seq<string>, tag: string): (r: seq<string>)
    ensures tag in r <==> tag !in labels
    ensures forall x :: x != tag ==> (x in r <==> x in labels)
  {
    FilterMembers(labels, Differs(tag));
    if tag in labels then Filter(labels, Differs(tag)) else labels + [tag]
  }

  /** Toggling an absent tag twice gives back the very same list. */
  lemma ToggleTwiceAbsent(labels: seq<string>, tag: string)
    requires tag !in labels
    ensures Toggled(Toggled(labels, tag), tag) == labels
  {
    FilterAppend(labels, tag, Differs(tag));
    FilterNoop(labels, Differs(tag));
  }

  /** Toggling a present tag twice on a list without repeats gives back
      the same labels (the tag moves to the end), still without
      repeats. */
  lemma ToggleTwicePresent(labels: seq<string>, tag: string)
    requires tag in labels && Distinct(labels)
    ensures var r := Toggled(Toggled(labels, tag), tag);
      && (forall x :: x in r <==> x in labels)
      && Distinct(r)
      && |r| == |labels|
  {
    var once := Filter(labels, Differs(tag));
    FilterDistinct(labels, Differs(tag));
    FilterMembers(labels, Differs(tag));
    var r := Toggled(once, tag);
    assert r == once + [tag];
    forall i, j | 0 <= i < j < |r| ensures r[i] != r[j] {
      if j == |once| {
        assert r[i] == once[i];
      }
    }
    LengthOfDistinct(labels, tag);
  }

  lemma LengthOfDistinct(labels: seq<string>, tag: string)
    requires tag in labels && Distinct(labels)
    ensures |Filter(labels, Differs(tag))| == |labels| - 1
  {
    var j :| 0 <= j < |labels| && labels[j] == tag;
    assert labels == labels[..j] + [tag] + labels[j + 1..];
    FilterSkip(labels[..j], labels[j + 1..], tag);
  }

  lemma FilterSkip(a: seq<string>, b: seq<string>, tag: string)
    requires tag !in a && tag !in b
    ensures |Filter(a + [tag] + b, Differs(tag))| == |a| + |b|
  {
    assert |Filter(a + [tag] + b, Differs(tag))| == Count(a + [tag] + b, Differs(tag));
    CountSplit(a, [tag] + b, Differs(tag));
    CountSplit([tag], b, Differs(tag));
    assert a + [tag] + b == a + ([tag] + b);
    CountAll(a, Differs(tag));
    CountAll(b, Differs(tag));
  }

  lemma {:induction false} CountSplit<T>(a: seq<T>, b: seq<T>, p: T -> bool)
    ensures Count(a + b, p) == Count(a, p) + Count(b, p)
    decreases |a|
  {
    if a != [] {
      assert (a + b)[1..] == a[1..] + b;
      CountSplit(a[1..], b, p);
    } else {
      assert a + b == b;
    }
  }

  // ---------------------------------------------------------------------
  // The dialog's state

  /** `{ title, body, labels }` as handed to `onCreateIssue`. */
  datatype IssueRequest = IssueRequest(title: string, body: string, labels: seq<string>)

  const TITLE_PREFIX: string := "[Playground] "

  /** `sessionName ? "[Playground] " + sessionName : "[Playground] "` */
  function InitialTitle(sessionName: Option<string>): (t: string)
    ensures t == TITLE_PREFIX + OrElse(sessionName, "")
  {
    if sessionName.Some? && sessionName.value != "" then TITLE_PREFIX + sessionName.value
    else TITLE_PREFIX
  }

  class IssueDialog {
    var title: string
    var additionalContext: string
    var labels: seq<string>
    var createdUrl: Option<string>

    constructor (sessionName: Option<string>)
      ensures title == InitialTitle(sessionName)
      ensures additionalContext == "" && createdUrl == None
      ensures labels == ["playground", "bug"]
    {
      title := InitialTitle(sessionName);
      additionalContext := "";
      labels := ["playground", "bug"];
      createdUrl := None;
    }

    /** The title input's `onChange`. */
    method SetTitle(t: string)
      modifies this`title
      ensures title == t
      ensures additionalContext == old(additionalContext) && labels == old(labels) && createdUrl == old(createdUrl)
    {
      title := t;
    }

    /** The context text area's `onChange`. */
    method SetContext(t: string)
      modifies this`additionalContext
      ensures additionalContext == t
      ensures title == old(title) && labels == old(labels) && createdUrl == old(createdUrl)
    {
      additionalContext := t;
    }

    /** The "Fechar" button of the success view: forgets the created URL,
        so the form shows again with what was typed. */
    method Close()
      modifies this`createdUrl
      ensures createdUrl == None
      ensures title == old(title) && additionalContext == old(additionalContext) && labels == old(labels)
    {
      createdUrl := None;
    }

    method ToggleLabel(tag: string)
      modifies this`labels
      ensures labels == Toggled(old(labels), tag)
    {
      if tag in labels {
        labels := Filter(labels, Differs(tag));
      } else {
        labels := labels + [tag];
      }
    }

    /** `handleCreate`. `created` is what `onCreateIssue` resolves to: the
        new issue's URL, or nothing when it throws. */
    method Create(c: IssueConfig, messages: seq<Message>, created: Option<string>)
      returns (sent: Option<IssueRequest>)
      modifies this`createdUrl
      ensures sent == RequestFor(old(title), c, messages, old(additionalContext), old(labels))
      ensures createdUrl == (if sent.Some? && created.Some? then created else old(createdUrl))
    {
      var r := RequestFor(title, c, messages, additionalContext, labels);
      sent := r;
      if r.Some? && created.Some? {
        createdUrl := created;
      }
    }
  }

  /** What `handleCreate` hands to `onCreateIssue`, if anything. */
  function RequestFor(title: string, c: IssueConfig, messages: seq<Message>, additionalContext: string, labels: seq<string>)
    : (r: Option<IssueRequest>)
    ensures r.None? <==> IsBlank(title)
    ensures r.Some? ==> r.value.title == Trim(title) && r.value.labels == labels
  {
    if Trim(title) == "" then None
    else Some(IssueRequest(Trim(title), IssueBody(c, messages, additionalContext), labels))
  }

  /** A request is only ever sent with a non-blank title that has no space
      at either end. */
  lemma SentTitleTrimmed(title: string)
    requires !IsBlank(title)
    ensures var t := Trim(title); t != "" && !IsSpace(t[0]) && !IsSpace(t[|t| - 1])
  {
  }
}
