/** The two export paths of the form. The local path sanitizes the preview's
    colours and saves the rasterised preview as a PDF; the remote path
    flattens the expanded document into four labelled text blocks, posts them
    to the rendering backend and downloads the PDF it answers with. Both stop
    with an alert when no document has been generated. */
module Export {
  import opened Text
  import opened Content
  import opened ColorFix

  datatype Option<T> = None | Some(value: T)

  const GenerateFirst := "Generate the SRS first (click Generate SRS)."
  const PreviewNotReady := "Preview not ready."
  const BackendFailed := "Error downloading PDF from backend"

  const DefaultStem := "project"
  const FileSuffix := "-SRS.pdf"
  const Endpoint := "/api/generate-srs"

  /** What an export ends with: an alert, a PDF saved from the local
      rasterisation, or the backend's PDF bytes offered for download. */
  datatype Outcome =
    | Alerted(message: string)
    | Saved(filename: string)
    | Downloaded(filename: string, blob: seq<bv8>)

  /** The download name: the raw project name as typed (not trimmed), or
      "project" when the field is empty, followed by "-SRS.pdf". */
  function DownloadName(projectName: string): (r: string)
    ensures |r| > |FileSuffix| && r[|r| - |FileSuffix|..] == FileSuffix
    ensures projectName != "" ==> |r| == |projectName| + |FileSuffix| && r[..|projectName|] == projectName
    ensures projectName == "" ==> r == "project-SRS.pdf"
  {
    OrElse(projectName, DefaultStem) + FileSuffix
  }

  /** The name field is used raw: a name of spaces gives a file named after
      the spaces, while the cover of the same document says "Untitled Project". */
  lemma DownloadNameUntrimmed(members: seq<string>, date: string)
    ensures DownloadName(" ") == " -SRS.pdf"
    ensures Expand(" ", "", members, date).cover.projectName == UntitledProject
  {
    assert AllWhitespace(" ");
    ExpandCover(" ", "", members, date);
  }

  // The remote payload: four template literals, each a sequence of indented
  // "Label: value" lines opened by a line break and closed by the indentation
  // of the closing backtick.

  const Indent := "            "
  const Closing := "\n          "

  /** One indented line of a block: it holds its "field: value" text and so
      its value. */
  function Line(field: string, value: string): (r: string)
    ensures Contains(r, field + ": " + value)
    ensures Contains(r, value)
  {
    var text := field + ": " + value;
    ContainsRight("\n" + Indent, text);
    ContainsRight(field + ": ", value);
    ContainsTransitive("\n" + Indent + text, text, value);
    "\n" + Indent + text
  }

  function RenderDefinition(d: Definition): string {
    d.term + " = " + d.meaning
  }

  function RenderDefinitions(ds: seq<Definition>): (r: seq<string>)
    ensures |r| == |ds| && forall k :: 0 <= k < |ds| ==> r[k] == RenderDefinition(ds[k])
  {
    if ds == [] then [] else [RenderDefinition(ds[0])] + RenderDefinitions(ds[1..])
  }

  function CoverBlock(c: Cover): string {
    Line("Title", c.title) + Line("Project", c.projectName) + Line("Description", c.description)
      + Line("Members", Join(c.members, ", ")) + Line("Date", c.date) + Closing
  }

  function IntroductionBlock(i: Introduction): string {
    Line("Purpose", i.purpose) + Line("Scope", i.scope)
      + Line("Definitions", Join(RenderDefinitions(i.definitions), "; "))
      + Line("References", i.references) + Closing
  }

  function GeneralDescriptionBlock(g: GeneralDescription): string {
    Line("Product Perspective", g.productPerspective) + Line("Product Functions", g.productFunctions)
      + Line("User Characteristics", g.userCharacteristics) + Line("Constraints", g.generalConstraints)
      + Line("Assumptions/Dependencies", g.assumptionsDependencies) + Closing
  }

  function SpecificRequirementsBlock(s: SpecificRequirements): string {
    Line("Functional Requirements", Join(s.functionalRequirements, " | "))
      + Line("External Interfaces", s.externalInterfaceRequirements)
      + Line("Non-Functional Requirements", Join(s.nonFunctionalRequirements, " | ")) + Closing
  }

  /** The JSON body of the remote request, one string per section. */
  datatype Payload = Payload(
    cover: string,
    introduction: string,
    generalDescription: string,
    specificRequirements: string)

  function Serialize(d: Document): Payload {
    Payload(
      CoverBlock(d.cover),
      IntroductionBlock(d.introduction),
      GeneralDescriptionBlock(d.generalDescription),
      SpecificRequirementsBlock(d.specificRequirements))
  }

  /** The cover block holds the members line, the members joined with ", ":
      every member, and each two consecutive members with ", " between them. */
  lemma CoverBlockMembers(c: Cover)
    ensures Contains(CoverBlock(c), "Members: " + Join(c.members, ", "))
    ensures forall k :: 0 <= k < |c.members| ==> Contains(CoverBlock(c), c.members[k])
    ensures forall k :: 0 <= k < |c.members| - 1 ==>
      Contains(CoverBlock(c), c.members[k] + ", " + c.members[k + 1])
  {
    var block := CoverBlock(c);
    var joined := Join(c.members, ", ");
    var members := Line("Members", joined);
    var upToDescription := Line("Title", c.title) + Line("Project", c.projectName) + Line("Description", c.description);
    var upToMembers := upToDescription + members;
    var upToDate := upToMembers + Line("Date", c.date);
    assert block == upToDate + Closing;
    ContainsLeft(upToDate, Closing);
    ContainsLeft(upToMembers, Line("Date", c.date));
    ContainsRight(upToDescription, members);
    ContainsTransitive(block, upToDate, upToMembers);
    ContainsTransitive(block, upToMembers, members);
    assert "Members" + ": " == "Members: ";
    ContainsTransitive(block, members, "Members: " + joined);
    ContainsTransitive(block, members, joined);
    JoinParts(block, c.members, ", ");
  }

  /** The introduction block holds the definitions line, the rendered
      definitions joined with "; ": every definition as "term = meaning",
      and "; " between consecutive definitions. */
  lemma IntroductionBlockDefinitions(i: Introduction)
    ensures Contains(IntroductionBlock(i), "Definitions: " + Join(RenderDefinitions(i.definitions), "; "))
    ensures forall k :: 0 <= k < |i.definitions| ==>
      Contains(IntroductionBlock(i), i.definitions[k].term + " = " + i.definitions[k].meaning)
    ensures forall k :: 0 <= k < |i.definitions| - 1 ==>
      Contains(IntroductionBlock(i), RenderDefinition(i.definitions[k]) + "; " + RenderDefinition(i.definitions[k + 1]))
  {
    var block := IntroductionBlock(i);
    var rendered := RenderDefinitions(i.definitions);
    var joined := Join(rendered, "; ");
    var definitions := Line("Definitions", joined);
    var upToScope := Line("Purpose", i.purpose) + Line("Scope", i.scope);
    var upToDefinitions := upToScope + definitions;
    var upToReferences := upToDefinitions + Line("References", i.references);
    assert block == upToReferences + Closing;
    ContainsLeft(upToReferences, Closing);
    ContainsLeft(upToDefinitions, Line("References", i.references));
    ContainsRight(upToScope, definitions);
    ContainsTransitive(block, upToReferences, upToDefinitions);
    ContainsTransitive(block, upToDefinitions, definitions);
    assert "Definitions" + ": " == "Definitions: ";
    ContainsTransitive(block, definitions, "Definitions: " + joined);
    ContainsTransitive(block, definitions, joined);
    JoinParts(block, rendered, "; ");
  }

  /** The requirements block holds each list, joined with " | ", after its
      own label: every functional and every non-functional requirement, each
      two consecutive ones of a list with " | " between. */
  lemma SpecificRequirementsBlockLists(s: SpecificRequirements)
    ensures Contains(SpecificRequirementsBlock(s), "Functional Requirements: " + Join(s.functionalRequirements, " | "))
    ensures Contains(SpecificRequirementsBlock(s), "Non-Functional Requirements: " + Join(s.nonFunctionalRequirements, " | "))
    ensures forall k :: 0 <= k < |s.functionalRequirements| ==>
      Contains(SpecificRequirementsBlock(s), s.functionalRequirements[k])
    ensures forall k :: 0 <= k < |s.functionalRequirements| - 1 ==>
      Contains(SpecificRequirementsBlock(s), s.functionalRequirements[k] + " | " + s.functionalRequirements[k + 1])
    ensures forall k :: 0 <= k < |s.nonFunctionalRequirements| ==>
      Contains(SpecificRequirementsBlock(s), s.nonFunctionalRequirements[k])
    ensures forall k :: 0 <= k < |s.nonFunctionalRequirements| - 1 ==>
      Contains(SpecificRequirementsBlock(s), s.nonFunctionalRequirements[k] + " | " + s.nonFunctionalRequirements[k + 1])
  {
    var block := SpecificRequirementsBlock(s);
    var fr := Join(s.functionalRequirements, " | ");
    var nfr := Join(s.nonFunctionalRequirements, " | ");
    var frLine := Line("Functional Requirements", fr);
    var nfrLine := Line("Non-Functional Requirements", nfr);
    var upToInterfaces := frLine + Line("External Interfaces", s.externalInterfaceRequirements);
    var upToNfr := upToInterfaces + nfrLine;
    assert block == upToNfr + Closing;
    ContainsLeft(upToNfr, Closing);
    ContainsLeft(upToInterfaces, nfrLine);
    ContainsLeft(frLine, Line("External Interfaces", s.externalInterfaceRequirements));
    ContainsRight(upToInterfaces, nfrLine);
    ContainsTransitive(block, upToNfr, upToInterfaces);
    ContainsTransitive(block, upToInterfaces, frLine);
    ContainsTransitive(block, upToNfr, nfrLine);
    assert "Functional Requirements" + ": " == "Functional Requirements: ";
    assert "Non-Functional Requirements" + ": " == "Non-Functional Requirements: ";
    ContainsTransitive(block, frLine, "Functional Requirements: " + fr);
    ContainsTransitive(block, nfrLine, "Non-Functional Requirements: " + nfr);
    ContainsTransitive(block, frLine, fr);
    ContainsTransitive(block, nfrLine, nfr);
    JoinParts(block, s.functionalRequirements, " | ");
    JoinParts(block, s.nonFunctionalRequirements, " | ");
  }

  /** The payload of a generated document names every member shown on its
      cover and all five functional requirements. */
  lemma PayloadOfExpansion(projectName: string, description: string, members: seq<string>, date: string)
    ensures var p := Serialize(Expand(projectName, description, members, date));
      (forall k :: 0 <= k < |CoverMembers(members)| ==> Contains(p.cover, CoverMembers(members)[k])) &&
      (forall k :: 0 <= k < |FunctionalRequirements| ==> Contains(p.specificRequirements, FunctionalRequirements[k]))
  {
    var d := Expand(projectName, description, members, date);
    CoverBlockMembers(d.cover);
    SpecificRequirementsBlockLists(d.specificRequirements);
  }

  /** `exportToPDF`: alerts and does nothing else when no document has been
      generated or the preview is not on the page; otherwise it sanitizes the
      preview's colours and saves under the download name. */
  method ExportToPdf(content: Option<Document>, preview: Option<Subtree>, projectName: string)
    returns (outcome: Outcome)
    requires preview.Some? ==> preview.value.Valid()
    modifies if preview.Some? then preview.value.Elements() else {}
    ensures content.None? ==> outcome == Alerted(GenerateFirst)
    ensures content.Some? && preview.None? ==> outcome == Alerted(PreviewNotReady)
    ensures content.Some? && preview.Some? ==> outcome == Saved(DownloadName(projectName))
    ensures preview.Some? ==> forall e :: e in preview.value.descendants ==>
      e.CurrentStyle() == if outcome.Saved? then SanitizeStyle(old(e.CurrentStyle())) else old(e.CurrentStyle())
    ensures preview.Some? ==> preview.value.root.CurrentStyle() == old(preview.value.root.CurrentStyle())
  {
    if content.None? {
      return Alerted(GenerateFirst);
    }
    if preview.None? {
      return Alerted(PreviewNotReady);
    }
    FixColors(preview.value);
    outcome := Saved(DownloadName(projectName));
  }

  /** The request the remote path sends. */
  datatype Request = Request(url: string, body: Payload)

  /** What the backend answers: a status flag and the body bytes, or a
      failure before any answer. */
  datatype Response = Response(ok: bool, blob: seq<bv8>) | NetworkError

  /** `downloadFromBackend`: alerts and sends nothing when no document has
      been generated; otherwise posts the serialized document and offers the
      backend's bytes, unchanged, under the download name, or alerts when the
      call fails or the status is not a success. */
  method DownloadFromBackend(content: Option<Document>, projectName: string, apiBase: string,
                             backend: Request -> Response)
    returns (sent: Option<Request>, outcome: Outcome)
    ensures content.None? ==> sent.None? && outcome == Alerted(GenerateFirst)
    ensures content.Some? ==> sent == Some(Request(apiBase + Endpoint, Serialize(content.value)))
    ensures sent.Some? && backend(sent.value).Response? && backend(sent.value).ok ==>
      outcome == Downloaded(DownloadName(projectName), backend(sent.value).blob)
    ensures sent.Some? && !(backend(sent.value).Response? && backend(sent.value).ok) ==>
      outcome == Alerted(BackendFailed)
  {
    if content.None? {
      return None, Alerted(GenerateFirst);
    }
    var request := Request(apiBase + Endpoint, Serialize(content.value));
    sent := Some(request);
    var response := backend(request);
    if response.NetworkError? || !response.ok {
      outcome := Alerted(BackendFailed);
      return;
    }
    outcome := Downloaded(DownloadName(projectName), response.blob);
  }
}
