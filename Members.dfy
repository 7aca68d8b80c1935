/** The editable list of group members held by the form: it starts as one
    blank entry, grows by one blank entry at a time up to `MaxMembers`, and
    entries are removed or rewritten by position. Each edit returns a fresh
    list, as the form's state setters do. */
module Members {

  /** Cap on the number of member entries. */
  const MaxMembers: nat := 3

  /** The list the form starts with, and the one Reset restores. */
  const InitialMembers: seq<string> := [""]

  /** `addMember`: ignored once the list holds `MaxMembers` entries, otherwise
      one blank entry is appended and nothing else changes. */
  function AddMember(m: seq<string>): (r: seq<string>)
    ensures |m| >= MaxMembers ==> r == m
    ensures |m| < MaxMembers ==> |r| == |m| + 1 && r[..|m|] == m && r[|m|] == ""
  {
    if |m| >= MaxMembers then m else m + [""]
  }

  /** `removeMember(idx)`: keeps every entry whose position differs from
      `idx`, in order. An `idx` outside the list removes nothing. */
  function RemoveMember(m: seq<string>, idx: int): (r: seq<string>)
    ensures 0 <= idx < |m| ==> r == m[..idx] + m[idx + 1..]
    ensures !(0 <= idx < |m|) ==> r == m
  {
    if m == [] then []
    else (if idx == 0 then [] else [m[0]]) + RemoveMember(m[1..], idx - 1)
  }

  /** `updateMember(idx, value)`: the entry at position `idx` becomes `value`;
      the length and every other entry stay as they were. */
  function UpdateMember(m: seq<string>, idx: int, value: string): (r: seq<string>)
    ensures |r| == |m|
    ensures forall i :: 0 <= i < |m| && i != idx ==> r[i] == m[i]
    ensures 0 <= idx < |m| ==> r[idx] == value
  {
    if m == [] then []
    else [if idx == 0 then value else m[0]] + UpdateMember(m[1..], idx - 1, value)
  }

  /** `xs.slice(0, n)`: the first `n` entries, or all of them when there are
      fewer. */
  function Take(xs: seq<string>, n: nat): (r: seq<string>)
    ensures |r| == if |xs| < n then |xs| else n
    ensures r == xs[..|r|]
  {
    if |xs| <= n then xs else xs[..n]
  }

  /** The edits the form can make to the list: the add, remove and update
      buttons, the Reset button, and the Auto-fill button, which installs the
      example's members cut to the cap. */
  datatype Edit =
    | Add
    | Remove(idx: int)
    | Update(idx: int, value: string)
    | Reset
    | AutoFill(names: seq<string>)

  function Apply(m: seq<string>, e: Edit): seq<string> {
    match e
    case Add => AddMember(m)
    case Remove(idx) => RemoveMember(m, idx)
    case Update(idx, value) => UpdateMember(m, idx, value)
    case Reset => InitialMembers
    case AutoFill(names) => Take(names, MaxMembers)
  }

  function ApplyAll(m: seq<string>, edits: seq<Edit>): seq<string>
    decreases |edits|
  {
    if edits == [] then m else ApplyAll(Apply(m, edits[0]), edits[1..])
  }

  /** No single edit takes a list within the cap beyond it. */
  lemma ApplyKeepsCap(m: seq<string>, e: Edit)
    requires |m| <= MaxMembers
    ensures |Apply(m, e)| <= MaxMembers
  {
  }

  /** No sequence of edits takes a list within the cap beyond it. */
  lemma {:induction false} ApplyAllKeepsCap(m: seq<string>, edits: seq<Edit>)
    requires |m| <= MaxMembers
    ensures |ApplyAll(m, edits)| <= MaxMembers
    decreases |edits|
  {
    if edits != [] {
      ApplyKeepsCap(m, edits[0]);
      ApplyAllKeepsCap(Apply(m, edits[0]), edits[1..]);
    }
  }

  /** Whatever edits the user makes, starting from the initial list, the form
      never holds more than `MaxMembers` entries. */
  lemma ReachableWithinCap(edits: seq<Edit>)
    ensures |ApplyAll(InitialMembers, edits)| <= MaxMembers
  {
    ApplyAllKeepsCap(InitialMembers, edits);
  }
}
