/**
 * The student roster: every student labelled with its class, a search over
 * name and admission number, and the matches grouped by class label, each
 * group in admission-number order and the groups in label order. Closing the
 * details dialog clears what it was editing.
 */
module StudentList {

  import opened Wrappers
  import opened Types
  import opened Lookup
  import Seqs
  import Sorting
  import Strings

  /** A student with the label of its class ('Unassigned' when the class is not found). */
  datatype StudentWithClass = StudentWithClass(student: Student, className: string)

  /** `studentsWithClass`: one entry per student, in roster order. */
  function WithClass(students: seq<Student>, classes: seq<Class>): (r: seq<StudentWithClass>)
    ensures |r| == |students|
    ensures forall i :: 0 <= i < |r| ==> r[i] == StudentWithClass(students[i], ClassLabel(classes, students[i].classId, "Unassigned"))
  {
    seq(|students|, i requires 0 <= i < |students| =>
      StudentWithClass(students[i], ClassLabel(classes, students[i].classId, "Unassigned")))
  }

  predicate Hit(e: StudentWithClass, term: string) {
    Strings.MatchesTerm(e.student.name, term) || Strings.MatchesTerm(e.student.admissionNumber, term)
  }

  /** `filteredStudents`: everything for an empty term, otherwise the matches in roster order. */
  function Filtered(es: seq<StudentWithClass>, term: string): (r: seq<StudentWithClass>)
    ensures term == "" ==> r == es
    ensures term != "" ==> forall e :: e in r <==> e in es && Hit(e, term)
    ensures forall e :: multiset(r)[e] == if term == "" || Hit(e, term) then multiset(es)[e] else 0
    ensures Seqs.SubseqOf(r, es)
  {
    if term == "" then
      Seqs.SubseqOfSelf(es);
      es
    else
      var p := (e: StudentWithClass) => Hit(e, term);
      Seqs.FilterProperties(es, p);
      Seqs.Filter(es, p)
  }

  function AdmissionKey(e: StudentWithClass): string {
    e.student.admissionNumber
  }

  /** `student.className || 'Unassigned'`: the key an entry is grouped under. */
  function GroupKey(e: StudentWithClass): string {
    OrElse(e.className, "Unassigned")
  }

  /** The matches sorted by admission number, before grouping. */
  function SortedEntries(es: seq<StudentWithClass>): (r: seq<StudentWithClass>)
    ensures multiset(r) == multiset(es)
    ensures Sorting.SortedBy(r, AdmissionKey, Strings.StrLe)
  {
    Strings.StrLeTotalOrder();
    Sorting.Sort(es, AdmissionKey, Strings.StrLe)
  }

  /** `groups` and `keys` hold the grouping of `xs`: one group per key in use, in order, each key once. */
  ghost predicate Grouped(xs: seq<StudentWithClass>, groups: map<string, seq<StudentWithClass>>, keys: seq<string>) {
    && (forall k :: k in groups <==> Sorting.WithKey(xs, GroupKey, k) != [])
    && (forall k :: k in groups ==> groups[k] == Sorting.WithKey(xs, GroupKey, k))
    && (forall k :: k in groups <==> k in keys)
    && (forall a, b :: 0 <= a < b < |keys| ==> keys[a] != keys[b])
  }

  lemma WithKeyStep(xs: seq<StudentWithClass>, e: StudentWithClass)
    ensures forall k' :: (Sorting.WithKey(xs + [e], GroupKey, k') ==
      Sorting.WithKey(xs, GroupKey, k') + (if GroupKey(e) == k' then [e] else []))
  {
    forall k' ensures Sorting.WithKey(xs + [e], GroupKey, k') == Sorting.WithKey(xs, GroupKey, k') + (if GroupKey(e) == k' then [e] else []) {
      Sorting.WithKeySnoc(xs, e, GroupKey, k');
    }
  }

  /** Pushing an entry whose key already has a group. */
  lemma PushExisting(xs: seq<StudentWithClass>, e: StudentWithClass, groups: map<string, seq<StudentWithClass>>, keys: seq<string>)
    requires Grouped(xs, groups, keys) && GroupKey(e) in groups
    ensures Grouped(xs + [e], groups[GroupKey(e) := groups[GroupKey(e)] + [e]], keys)
  {
    WithKeyStep(xs, e);
  }

  /** Pushing an entry whose key is met for the first time: the group is created and the key recorded. */
  lemma PushNew(xs: seq<StudentWithClass>, e: StudentWithClass, groups: map<string, seq<StudentWithClass>>, keys: seq<string>)
    requires Grouped(xs, groups, keys) && GroupKey(e) !in groups
    ensures Grouped(xs + [e], groups[GroupKey(e) := [] + [e]], keys + [GroupKey(e)])
  {
    WithKeyStep(xs, e);
    var k := GroupKey(e);
    var g := groups[k := [] + [e]];
    var ks := keys + [k];
    var ys := xs + [e];
    forall k' ensures k' in g <==> Sorting.WithKey(ys, GroupKey, k') != [] {
    }
    forall k' | k' in g ensures g[k'] == Sorting.WithKey(ys, GroupKey, k') {
      if k' == k {
        assert Sorting.WithKey(xs, GroupKey, k) == [];
      }
    }
    forall k' ensures k' in g <==> k' in ks {
      assert k' in ks <==> k' in keys || k' == k;
    }
    forall a, b | 0 <= a < b < |ks| ensures ks[a] != ks[b] {
      if b == |keys| {
        assert ks[a] == keys[a] && keys[a] in keys;
      } else {
        assert ks[a] == keys[a] && ks[b] == keys[b];
      }
    }
  }

  /**
   * The `reduce` into a dictionary: each entry is pushed onto the list under its
   * key, the list being created (and the key recorded, in insertion order) the
   * first time the key is met.
   */
  method GroupByLabel(sorted: seq<StudentWithClass>) returns (groups: map<string, seq<StudentWithClass>>, keys: seq<string>)
    ensures forall k :: k in groups <==> Sorting.WithKey(sorted, GroupKey, k) != []
    ensures forall k :: k in groups ==> groups[k] == Sorting.WithKey(sorted, GroupKey, k)
    ensures forall k :: k in groups <==> k in keys
    ensures forall a, b :: 0 <= a < b < |keys| ==> keys[a] != keys[b]
  {
    groups := map[];
    keys := [];
    var i := 0;
    while i < |sorted|
      invariant 0 <= i <= |sorted|
      invariant Grouped(sorted[..i], groups, keys)
    {
      var e := sorted[i];
      var k := GroupKey(e);
      assert sorted[..i + 1] == sorted[..i] + [e];
      if k !in groups {
        PushNew(sorted[..i], e, groups, keys);
        groups := groups[k := []];
        keys := keys + [k];
      } else {
        PushExisting(sorted[..i], e, groups, keys);
      }
      groups := groups[k := groups[k] + [e]];
      i := i + 1;
    }
    assert sorted[..i] == sorted;
  }

  /** A group exists for a key exactly when some entry has that key. */
  lemma GroupExistsIff(sorted: seq<StudentWithClass>, k: string)
    ensures Sorting.WithKey(sorted, GroupKey, k) != [] <==> exists i :: 0 <= i < |sorted| && GroupKey(sorted[i]) == k
  {
    Sorting.WithKeyMultiset(sorted, GroupKey, k);
    var w := Sorting.WithKey(sorted, GroupKey, k);
    if w != [] {
      assert w[0] in multiset(w);
      assert w[0] in sorted;
    }
    if exists i :: 0 <= i < |sorted| && GroupKey(sorted[i]) == k {
      var i :| 0 <= i < |sorted| && GroupKey(sorted[i]) == k;
      assert sorted[i] in multiset(sorted);
      assert sorted[i] in multiset(w);
    }
  }

  /** Grouping partitions the entries: each lies in the group of its own key, and in no other. */
  lemma GroupsPartition(sorted: seq<StudentWithClass>, e: StudentWithClass, k: string)
    requires e in sorted
    ensures e in Sorting.WithKey(sorted, GroupKey, GroupKey(e))
    ensures k != GroupKey(e) ==> e !in Sorting.WithKey(sorted, GroupKey, k)
    ensures multiset(Sorting.WithKey(sorted, GroupKey, GroupKey(e)))[e] == multiset(sorted)[e]
  {
    Sorting.WithKeyMultiset(sorted, GroupKey, GroupKey(e));
    Sorting.WithKeyMultiset(sorted, GroupKey, k);
  }

  /** Every group of the sorted entries is itself in admission-number order. */
  lemma GroupsSorted(es: seq<StudentWithClass>, k: string)
    ensures Sorting.SortedBy(Sorting.WithKey(SortedEntries(es), GroupKey, k), AdmissionKey, Strings.StrLe)
  {
    Sorting.WithKeySorted(SortedEntries(es), GroupKey, Strings.StrLe, k, AdmissionKey);
  }

  function Id(s: string): string {
    s
  }

  /** `Object.entries(groupedStudents).sort(...)`: the group keys in ascending label order. */
  function RenderOrder(keys: seq<string>): (r: seq<string>)
    ensures multiset(r) == multiset(keys)
    ensures forall i, j :: 0 <= i < j < |r| ==> Strings.StrLe(r[i], r[j])
  {
    Strings.StrLeTotalOrder();
    var r := Sorting.Sort(keys, Id, Strings.StrLe);
    assert forall i, j :: 0 <= i < j < |r| ==> Strings.StrLe(Id(r[i]), Id(r[j]));
    r
  }

  /** Rendering the groups shows each group exactly once. */
  lemma RenderOrderShowsEveryGroup(groups: map<string, seq<StudentWithClass>>, keys: seq<string>)
    requires forall k :: k in groups <==> k in keys
    ensures forall k :: k in groups <==> k in RenderOrder(keys)
  {
    var r := RenderOrder(keys);
    forall k ensures k in r <==> k in keys {
      assert k in r <==> k in multiset(r);
    }
  }

  // ---------------------------------------------------------------------------
  // The details dialog

  /** The page's dialog state. */
  class RosterState {
    var editingStudent: Option<Student>
    var studentSubjects: seq<string>
    var isModalOpen: bool

    constructor()
      ensures editingStudent == None && studentSubjects == [] && !isModalOpen
    {
      editingStudent := None;
      studentSubjects := [];
      isModalOpen := false;
    }

    /** `handleEdit` once the subjects are fetched: the dialog opens on the student with their enrolled subjects. */
    method HandleEdit(student: Student, enrolled: seq<string>)
      modifies this
      ensures editingStudent == Some(student) && studentSubjects == enrolled && isModalOpen
    {
      studentSubjects := enrolled;
      editingStudent := Some(student);
      isModalOpen := true;
    }

    /** `handleModalClose`: the dialog closes and forgets the student and the subjects. */
    method HandleModalClose()
      modifies this
      ensures !isModalOpen && editingStudent == None && studentSubjects == []
    {
      isModalOpen := false;
      editingStudent := None;
      studentSubjects := [];
    }
  }
}
