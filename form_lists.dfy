/** The list edits the dashboard forms share: the duplicate-free skill
    list of the profile and new-job pages (also used for a project's
    technologies), and the add / update / remove-by-index handlers of the
    profile page's experience, project and certificate lists. A list entry
    is a form object: a map from field name to value. */
module FormLists {
  import opened Common

  /** `addSkill`: the trimmed input is appended when it is non-empty and
      not already in the list. */
  function AddTrimmed(list: seq<string>, raw: string): (r: seq<string>)
    ensures Trim(raw) == "" || Trim(raw) in list ==> r == list
    ensures Trim(raw) != "" && Trim(raw) !in list ==> r == list + [Trim(raw)]
  {
    var t := Trim(raw);
    if t != "" && t !in list then list + [t] else list
  }

  /** Adding keeps a duplicate-free list duplicate-free. */
  lemma AddTrimmedNoDup(list: seq<string>, raw: string)
    requires NoDup(list)
    ensures NoDup(AddTrimmed(list, raw))
  {
    var r := AddTrimmed(list, raw);
    if r != list {
      forall i, j | 0 <= i < j < |r| ensures r[i] != r[j] {
        if j == |list| {
          assert r[i] == list[i];
        } else {
          assert r[i] == list[i] && r[j] == list[j];
        }
      }
    }
  }

  /** The list after adding holds the old entries and the trimmed input,
      unless that is empty; the empty string is never added. */
  lemma AddTrimmedMembers(list: seq<string>, raw: string, x: string)
    ensures x in AddTrimmed(list, raw) <==> x in list || (x == Trim(raw) && x != "")
  {
  }

  /** Adding the same input twice is adding it once. */
  lemma AddTrimmedIdempotent(list: seq<string>, raw: string)
    ensures AddTrimmed(AddTrimmed(list, raw), raw) == AddTrimmed(list, raw)
  {
    var t := Trim(raw);
    if t != "" && t !in list {
      assert (list + [t])[|list|] == t;
    }
  }

  function Differs(x: string): string -> bool {
    (y: string) => y != x
  }

  /** `removeSkill`: every occurrence goes, the others stay in order. */
  function Without(list: seq<string>, x: string): (r: seq<string>)
    ensures x !in r
    ensures forall y :: y != x ==> (y in r <==> y in list)
    ensures IsSubseq(r, list)
  {
    FilterEach(list, Differs(x));
    FilterIsSubseq(list, Differs(x));
    Filter(list, Differs(x))
  }

  /** Removing keeps a duplicate-free list duplicate-free. */
  lemma WithoutKeepsNoDup(list: seq<string>, x: string)
    requires NoDup(list)
    ensures NoDup(Without(list, x))
  {
    SubseqKeepsNoDup(Without(list, x), list);
  }

  lemma {:induction false} SubseqKeepsNoDup<T>(a: seq<T>, b: seq<T>)
    requires IsSubseq(a, b) && NoDup(b)
    ensures NoDup(a)
    decreases |b|
  {
    if a != [] {
      assert NoDup(b[1..]) by {
        forall i, j | 0 <= i < j < |b[1..]| ensures b[1..][i] != b[1..][j] {
          assert b[1..][i] == b[i + 1] && b[1..][j] == b[j + 1];
        }
      }
      if a[0] == b[0] && IsSubseq(a[1..], b[1..]) {
        SubseqKeepsNoDup(a[1..], b[1..]);
        SubseqMembers(a[1..], b[1..]);
        forall j | 0 < j < |a| ensures a[0] != a[j] {
          assert a[j] == a[1..][j - 1];
          assert a[j] in b[1..];
        }
      } else {
        SubseqKeepsNoDup(a, b[1..]);
      }
    }
  }

  lemma {:induction false} SubseqMembers<T>(a: seq<T>, b: seq<T>)
    requires IsSubseq(a, b)
    ensures forall x :: x in a ==> x in b
    decreases |b|
  {
    if a != [] {
      if a[0] == b[0] && IsSubseq(a[1..], b[1..]) {
        SubseqMembers(a[1..], b[1..]);
        assert forall x :: x in a ==> x == a[0] || x in a[1..];
      } else {
        SubseqMembers(a, b[1..]);
      }
    }
  }

  /** Removing a skill just added restores the list. */
  lemma WithoutUndoesAdd(list: seq<string>, raw: string)
    requires Trim(raw) != "" && Trim(raw) !in list
    ensures Without(AddTrimmed(list, raw), Trim(raw)) == list
  {
    var t := Trim(raw);
    FilterAppend(list, [t], Differs(t));
    FilterAll(list, Differs(t));
    assert Filter([t], Differs(t)) == [];
  }

  // ---------------------------------------------------------------------
  // Form objects and index-based edits
  // ---------------------------------------------------------------------

  datatype FormValue = Text(text: string) | Flag(flag: bool) | Texts(texts: seq<string>)

  type Entry = map<string, FormValue>

  /** The objects `addExperience`, `addProject` and `addCertificate` append. */
  const DefaultExperience: Entry := map[
    "title" := Text(""), "company" := Text(""), "type" := Text("Full-time"), "location" := Text(""),
    "startDate" := Text(""), "endDate" := Text(""), "current" := Flag(false), "description" := Text("")]

  const DefaultProject: Entry := map[
    "name" := Text(""), "description" := Text(""), "technologies" := Texts([]), "projectUrl" := Text(""),
    "githubUrl" := Text(""), "startDate" := Text(""), "endDate" := Text(""), "current" := Flag(false)]

  const DefaultCertificate: Entry := map[
    "name" := Text(""), "issuer" := Text(""), "issueDate" := Text(""), "expiryDate" := Text(""),
    "credentialId" := Text(""), "credentialUrl" := Text("")]

  /** The add handlers: one default entry at the end. */
  function AddEntry<T>(list: seq<T>, d: T): (r: seq<T>)
    ensures |r| == |list| + 1 && r[|list|] == d && r[..|list|] == list
  {
    list + [d]
  }

  /** The update handlers: `{ ...updated[i], [field]: value }` at index i. */
  function UpdateAt(list: seq<Entry>, i: nat, field: string, value: FormValue): (r: seq<Entry>)
    requires i < |list|
    ensures |r| == |list|
    ensures field in r[i] && r[i][field] == value
    ensures forall f :: f in list[i] && f != field ==> f in r[i] && r[i][f] == list[i][f]
    ensures r[i].Keys == list[i].Keys + {field}
    ensures forall k :: 0 <= k < |list| && k != i ==> r[k] == list[k]
  {
    list[i := list[i][field := value]]
  }

  /** The remove handlers: `filter((_, j) => j !== i)`. An index past the
      end removes nothing. */
  function RemoveAt<T>(list: seq<T>, i: nat): (r: seq<T>)
    ensures i < |list| ==> |r| == |list| - 1
    ensures i >= |list| ==> r == list
    ensures forall k :: 0 <= k < i && k < |list| ==> r[k] == list[k]
    ensures forall k :: i <= k < |r| ==> r[k] == list[k + 1]
  {
    if i < |list| then list[..i] + list[i + 1..] else list
  }

  /** Removing the entry just added restores the list. */
  lemma RemoveUndoesAdd<T>(list: seq<T>, d: T)
    ensures RemoveAt(AddEntry(list, d), |list|) == list
  {
  }

  /** Removing by index keeps the other entries in order. */
  lemma RemoveAtIsSubseq<T>(list: seq<T>, i: nat)
    ensures IsSubseq(RemoveAt(list, i), list)
  {
    if i < |list| {
      SliceAppendIsSubseq(list, i);
    } else {
      SelfIsSubseq(list);
    }
  }

  lemma {:induction false} SliceAppendIsSubseq<T>(s: seq<T>, i: nat)
    requires i < |s|
    ensures IsSubseq(s[..i] + s[i + 1..], s)
    decreases i
  {
    var r := s[..i] + s[i + 1..];
    if i == 0 {
      assert r == s[1..];
      SelfIsSubseq(s[1..]);
    } else {
      SliceAppendIsSubseq(s[1..], i - 1);
      assert r[1..] == s[1..][..i - 1] + s[1..][i..];
      assert r[0] == s[0];
    }
  }
}
