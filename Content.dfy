/** The content expander: the form's project name, description and member
    list, plus the generation date, expanded into the four-section SRS
    document. Everything but the cover fields, the purpose, the scope and the
    product perspective is fixed boilerplate. */
module Content {
  import opened Text

  datatype Definition = Definition(term: string, meaning: string)

  datatype Cover = Cover(
    title: string,
    projectName: string,
    description: string,
    members: seq<string>,
    date: string)

  datatype Introduction = Introduction(
    purpose: string,
    scope: string,
    definitions: seq<Definition>,
    references: string)

  datatype GeneralDescription = GeneralDescription(
    productPerspective: string,
    productFunctions: string,
    userCharacteristics: string,
    generalConstraints: string,
    assumptionsDependencies: string)

  datatype SpecificRequirements = SpecificRequirements(
    functionalRequirements: seq<string>,
    externalInterfaceRequirements: string,
    nonFunctionalRequirements: seq<string>)

  datatype Document = Document(
    cover: Cover,
    introduction: Introduction,
    generalDescription: GeneralDescription,
    specificRequirements: SpecificRequirements)

  const UntitledProject := "Untitled Project"
  const NoDescription := "No description provided."
  const NoMembers := "(No members)"
  const Title := "Software Requirements Specification (SRS)"

  const Definitions: seq<Definition> := [
    Definition("SRS", "Software Requirements Specification"),
    Definition("DBMS", "Database Management System"),
    Definition("KYC", "Know Your Customer (if applicable for the project)")
  ]

  const References :=
    "Relevant documents and references include project proposal, design mockups, any API contracts, and applicable coding or security standards."

  const ProductFunctions :=
    "Key functions include: user authentication and role management, class/session creation by faculty, student joining via enrollment number, attendance capture and modification, monthly report generation in PDF/XLSX formats, and administrative management features."

  const UserCharacteristics :=
    "Primary users are (1) Students — will join sessions using enrollment numbers, (2) Faculty — will create and manage attendance sessions and reports, and (3) Administrators — will manage users, audit logs, and system configuration."

  const GeneralConstraints :=
    "The application must be responsive, work on modern mobile/desktop browsers, adhere to data privacy rules (as applicable), and operate with the chosen DBMS and hosting limits."

  const AssumptionsDependencies :=
    "Assumes stable network connectivity for users, availability of any external APIs (if used), and that user enrollment numbers are unique. Dependencies may include authentication services, email providers, and external data APIs."

  const FunctionalRequirements: seq<string> := [
    "FR-1:" + " User login/logout with role-based access control (Student, Faculty, Admin).",
    "FR-2:" + " Faculty can create attendance sessions with date/time and subject details.",
    "FR-3:" + " Students can join sessions using unique enrollment numbers and mark attendance.",
    "FR-4:" + " Admin can generate monthly attendance reports for any class in PDF/XLSX.",
    "FR-5:" + " System must maintain attendance history and allow limited edits with audit logs."
  ]

  const ExternalInterfaces :=
    "RESTful JSON API endpoints for frontend-backend communication. If integrations exist, define payload formats, auth methods (e.g., JWT), rate limits, and error handling."

  const NonFunctionalRequirements: seq<string> := [
    "NFR-1:" + " Performance — typical page load times < 2s on modern connections.",
    "NFR-2:" + " Security — store passwords hashed, use HTTPS, follow OWASP best practices.",
    "NFR-3:" + " Usability — responsive UI with clear workflows for students and faculty.",
    "NFR-4:" + " Reliability — data must be backed up; system uptime target 99%."
  ]

  /** `members.filter(Boolean)`: the entries that are not the empty string, in
      order. Entries made only of spaces are kept; nothing is trimmed. */
  function NonEmptyMembers(m: seq<string>): (r: seq<string>)
    ensures |r| <= |m|
    ensures forall i :: 0 <= i < |r| ==> r[i] != ""
    ensures r == [] <==> forall i :: 0 <= i < |m| ==> m[i] == ""
  {
    if m == [] then []
    else (if m[0] != "" then [m[0]] else []) + NonEmptyMembers(m[1..])
  }

  /** The filter keeps the order of `m` and every non-empty entry of `m`, as
      often as `m` holds it. */
  lemma {:induction false} NonEmptyMembersKeeps(m: seq<string>)
    ensures IsSubsequence(NonEmptyMembers(m), m)
    ensures forall x :: x != "" ==> multiset(NonEmptyMembers(m))[x] == multiset(m)[x]
    decreases |m|
  {
    if m != [] {
      var tail := m[1..];
      NonEmptyMembersKeeps(tail);
      assert m == [m[0]] + tail;
      var r := NonEmptyMembers(m);
      if m[0] != "" {
        assert r == [m[0]] + NonEmptyMembers(tail);
        assert r[1..] == NonEmptyMembers(tail);
      } else {
        assert r == NonEmptyMembers(tail);
        if r != [] {
          assert r[0] != m[0];
        }
      }
    }
  }

  /** `a` is obtained from `b` by deleting some entries. */
  predicate IsSubsequence(a: seq<string>, b: seq<string>)
    decreases |b|
  {
    if a == [] then true
    else if b == [] then false
    else (a[0] == b[0] && IsSubsequence(a[1..], b[1..])) || IsSubsequence(a, b[1..])
  }

  /** A subsequence holds no entry more often than the sequence it comes from. */
  lemma {:induction false} SubsequenceCount(a: seq<string>, b: seq<string>, x: string)
    requires IsSubsequence(a, b)
    ensures multiset(a)[x] <= multiset(b)[x]
    decreases |b|
  {
    if a != [] {
      assert b == [b[0]] + b[1..];
      if a[0] == b[0] && IsSubsequence(a[1..], b[1..]) {
        assert a == [a[0]] + a[1..];
        SubsequenceCount(a[1..], b[1..], x);
      } else {
        SubsequenceCount(a, b[1..], x);
      }
    }
  }

  /** The filter is the only list that keeps the order of `m`, holds no empty
      entry and holds every non-empty entry of `m` as often as `m` does. */
  lemma {:induction false} NonEmptyMembersUnique(m: seq<string>, r: seq<string>)
    requires IsSubsequence(r, m)
    requires forall i :: 0 <= i < |r| ==> r[i] != ""
    requires forall x :: x != "" ==> multiset(r)[x] == multiset(m)[x]
    ensures r == NonEmptyMembers(m)
    decreases |m|
  {
    if m == [] {
    } else {
      var tail := m[1..];
      assert m == [m[0]] + tail;
      assert forall x :: x != m[0] ==> multiset(m)[x] == multiset(tail)[x];
      if m[0] == "" {
        if r != [] {
          assert r[0] != m[0];
        }
        assert IsSubsequence(r, tail);
        NonEmptyMembersUnique(tail, r);
      } else {
        assert multiset(r)[m[0]] > 0;
        assert r != [];
        if r[0] == m[0] && IsSubsequence(r[1..], tail) {
          assert r == [r[0]] + r[1..];
          NonEmptyMembersUnique(tail, r[1..]);
        } else {
          assert IsSubsequence(r, tail);
          SubsequenceCount(r, tail, m[0]);
          assert false;
        }
      }
    }
  }

  /** The cover's member list: the non-empty entries, or the placeholder when
      there are none. It never shows an empty name. */
  function CoverMembers(m: seq<string>): (r: seq<string>)
    ensures forall k :: 0 <= k < |r| ==> r[k] != ""
  {
    var group := NonEmptyMembers(m);
    if |group| > 0 then group else [NoMembers]
  }

  /** What the cover lists as members. */
  lemma CoverMembersSpec(m: seq<string>)
    ensures CoverMembers(m) != []
    ensures (exists i :: 0 <= i < |m| && m[i] != "") ==> CoverMembers(m) == NonEmptyMembers(m)
    ensures (forall i :: 0 <= i < |m| ==> m[i] == "") ==> CoverMembers(m) == [NoMembers]
    ensures |CoverMembers(m)| <= if |m| < 1 then 1 else |m|
  {
  }

  /** A list with no empty entry reaches the cover unchanged; a list of only
      spaces is not treated as empty. */
  lemma {:induction false} CoverMembersKeepsNonEmpty(m: seq<string>)
    requires m != []
    requires forall i :: 0 <= i < |m| ==> m[i] != ""
    ensures CoverMembers(m) == m
  {
    SubsequenceRefl(m);
    NonEmptyMembersUnique(m, m);
  }

  /** Every list is a subsequence of itself. */
  lemma {:induction false} SubsequenceRefl(m: seq<string>)
    ensures IsSubsequence(m, m)
    decreases |m|
  {
    if m != [] {
      SubsequenceRefl(m[1..]);
    }
  }

  /** The project name on the cover: the trimmed input, or the fallback. */
  function CoverName(projectName: string): string {
    OrElse(Trim(projectName), UntitledProject)
  }

  /** The description on the cover: the trimmed input, or the fallback. */
  function CoverDescription(description: string): string {
    OrElse(Trim(description), NoDescription)
  }

  const PurposeTail :=
    "This SRS captures the objectives, scope, and formalized requirements to align stakeholders, designers, and developers."

  const ScopeTail :=
    "This SRS defines functional and non-functional requirements, external interfaces, constraints, and user characteristics required to deliver the system."

  const PerspectiveTail :=
    " is a standalone web-based system designed to integrate with existing college/staff systems as needed. It provides a front-end UI for students and faculty and a backend API for data storage and reporting."

  /** The purpose sentence, naming the project in quotes. */
  function Purpose(name: string): string {
    "The purpose of this document is to provide a comprehensive Software Requirements Specification (SRS) for the \""
      + name + "\" project. " + PurposeTail
  }

  /** The scope sentence, built from the name and the description. */
  function Scope(name: string, desc: string): string {
    "The " + name + " aims to " + desc + " " + ScopeTail
  }

  /** `generateSRSContent`, with the date passed in. */
  function Expand(projectName: string, description: string, members: seq<string>, date: string): Document {
    var name := CoverName(projectName);
    var desc := CoverDescription(description);
    Document(
      Cover(Title, name, desc, CoverMembers(members), date),
      Introduction(Purpose(name), Scope(name, desc), Definitions, References),
      GeneralDescription(
        name + PerspectiveTail,
        ProductFunctions,
        UserCharacteristics,
        GeneralConstraints,
        AssumptionsDependencies),
      SpecificRequirements(FunctionalRequirements, ExternalInterfaces, NonFunctionalRequirements))
  }

  /** "FR-n:" / "NFR-n:" for a single-digit `n`. */
  function Label(prefix: string, n: nat): string
    requires 1 <= n <= 9
  {
    prefix + [('0' as int + n) as char] + ":"
  }

  /** The cover shows the trimmed name and description, falling back to fixed
      text exactly when the input is all whitespace; the date is the one given. */
  lemma ExpandCover(projectName: string, description: string, members: seq<string>, date: string)
    ensures Expand(projectName, description, members, date).cover.title == Title
    ensures !AllWhitespace(projectName) ==> Expand(projectName, description, members, date).cover.projectName == Trim(projectName)
    ensures AllWhitespace(projectName) ==> Expand(projectName, description, members, date).cover.projectName == UntitledProject
    ensures !AllWhitespace(description) ==> Expand(projectName, description, members, date).cover.description == Trim(description)
    ensures AllWhitespace(description) ==> Expand(projectName, description, members, date).cover.description == NoDescription
    ensures Expand(projectName, description, members, date).cover.members == CoverMembers(members)
    ensures Expand(projectName, description, members, date).cover.date == date
  {
    TrimEmptyIff(projectName);
    TrimEmptyIff(description);
  }

  /** The functional requirements are labelled FR-1 to FR-5, in order. */
  lemma FunctionalLabels()
    ensures |FunctionalRequirements| == 5
    ensures forall k :: 1 <= k <= 5 ==> Label("FR-", k) <= FunctionalRequirements[k - 1]
  {
    var fr := FunctionalRequirements;
    assert Label("FR-", 1) <= fr[0];
    assert Label("FR-", 2) <= fr[1];
    assert Label("FR-", 3) <= fr[2];
    assert Label("FR-", 4) <= fr[3];
    assert Label("FR-", 5) <= fr[4];
  }

  /** The non-functional requirements are labelled NFR-1 to NFR-4, in order. */
  lemma NonFunctionalLabels()
    ensures |NonFunctionalRequirements| == 4
    ensures forall k :: 1 <= k <= 4 ==> Label("NFR-", k) <= NonFunctionalRequirements[k - 1]
  {
    var nfr := NonFunctionalRequirements;
    assert Label("NFR-", 1) <= nfr[0];
    assert Label("NFR-", 2) <= nfr[1];
    assert Label("NFR-", 3) <= nfr[2];
    assert Label("NFR-", 4) <= nfr[3];
  }

  /** Whatever the input, the document has three definitions, FR-1 to FR-5 and
      NFR-1 to NFR-4 in order, and a scope that opens with the name and the
      description shown on the cover. */
  lemma ExpandShape(projectName: string, description: string, members: seq<string>, date: string)
    ensures var d := Expand(projectName, description, members, date);
      |d.introduction.definitions| == 3 &&
      |d.specificRequirements.functionalRequirements| == 5 &&
      (forall k :: 1 <= k <= 5 ==> Label("FR-", k) <= d.specificRequirements.functionalRequirements[k - 1]) &&
      |d.specificRequirements.nonFunctionalRequirements| == 4 &&
      (forall k :: 1 <= k <= 4 ==> Label("NFR-", k) <= d.specificRequirements.nonFunctionalRequirements[k - 1]) &&
      "The " + d.cover.projectName + " aims to " + d.cover.description + " " <= d.introduction.scope
  {
    FunctionalLabels();
    NonFunctionalLabels();
    var name, desc := CoverName(projectName), CoverDescription(description);
    var lead := "The " + name + " aims to " + desc + " ";
    assert Scope(name, desc) == lead + ScopeTail;
  }

  /** Two expansions of the same input differ at most in the cover's date. */
  lemma ExpandDeterministic(projectName: string, description: string, members: seq<string>, date1: string, date2: string)
    ensures var d1 := Expand(projectName, description, members, date1);
      d1.(cover := d1.cover.(date := date2)) == Expand(projectName, description, members, date2)
  {
  }

  /** The definitions, references and specific requirements do not depend on
      the input at all; the member list influences nothing but the cover. */
  lemma ExpandBoilerplate(n1: string, d1: string, m1: seq<string>, t1: string,
                          n2: string, d2: string, m2: seq<string>, t2: string)
    ensures Expand(n1, d1, m1, t1).introduction.definitions == Expand(n2, d2, m2, t2).introduction.definitions
    ensures Expand(n1, d1, m1, t1).introduction.references == Expand(n2, d2, m2, t2).introduction.references
    ensures Expand(n1, d1, m1, t1).specificRequirements == Expand(n2, d2, m2, t2).specificRequirements
    ensures Expand(n1, d1, m1, t1).introduction == Expand(n1, d1, m2, t2).introduction
    ensures Expand(n1, d1, m1, t1).generalDescription == Expand(n1, d2, m2, t2).generalDescription
  {
  }

  const ExampleProjectName := "Smart Attendance Management System"
  const ExampleDescription :=
    "A responsive web application to automate college attendance using enrollment numbers, with monthly PDF/XLSX reports and role-based access for students, faculty, and admin."
  const ExampleMembers: seq<string> := ["Vraj Adhia", "John Doe", "Jane Smith"]

  /** The form's built-in example expands with its three members on the
      cover, in order, and five functional requirements. */
  lemma ExpandExample(date: string)
    ensures var d := Expand(ExampleProjectName, ExampleDescription, ExampleMembers, date);
      d.cover.members == ExampleMembers &&
      |d.specificRequirements.functionalRequirements| == 5
  {
    CoverMembersKeepsNonEmpty(ExampleMembers);
  }

  /** A member entry of spaces is not empty, so it reaches the cover. */
  lemma BlankMemberKept()
    ensures CoverMembers([" ", ""]) == [" "]
  {
  }
}
