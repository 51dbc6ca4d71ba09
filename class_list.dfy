/**
 * The class list printer: the students of the chosen class in ascending
 * admission-number order, each printed as a numbered row with the name
 * written surname first and six empty columns to fill in by hand.
 */
module ClassList {

  import opened Wrappers
  import opened Types
  import opened Lookup
  import Seqs
  import Sorting
  import Strings

  function AdmissionOf(s: Student): string {
    s.admissionNumber
  }

  /** The students whose class is `classId`, in roster order. */
  function InClass(students: seq<Student>, classId: string): (r: seq<Student>)
    ensures forall s :: s in r <==> s in students && s.classId == classId
    ensures Seqs.SubseqOf(r, students)
    ensures forall s :: multiset(r)[s] == if s.classId == classId then multiset(students)[s] else 0
  {
    var p := (s: Student) => s.classId == classId;
    Seqs.FilterProperties(students, p);
    Seqs.Filter(students, p)
  }

  /** `filteredStudents`: the class's students sorted by admission number. */
  function Listed(students: seq<Student>, classId: string): (r: seq<Student>)
    ensures multiset(r) == multiset(InClass(students, classId))
    ensures forall s :: s in r <==> s in students && s.classId == classId
    ensures forall i, j :: 0 <= i < j < |r| ==> Strings.StrLe(r[i].admissionNumber, r[j].admissionNumber)
  {
    Strings.StrLeTotalOrder();
    var cs := InClass(students, classId);
    var r := Sorting.Sort(cs, AdmissionOf, Strings.StrLe);
    assert forall s :: s in r <==> s in multiset(cs);
    r
  }

  // ---------------------------------------------------------------------------
  // Surname first

  /** What `reorderName` returns: the last space-separated part, a comma, then the others in order. */
  function Reordered(name: string): (r: string)
    ensures ' ' !in name ==> r == name
    ensures ' ' in name ==> exists k :: LastSpaceAt(name, k) && r == name[k + 1..] + ", " + name[..k]
  {
    var parts := Strings.Split(name, ' ');
    Strings.SplitSingle(name, ' ');
    if |parts| > 1 then
      LastPartAfterLastSpace(name);
      parts[|parts| - 1] + ", " + Strings.Join(parts[..|parts| - 1], " ")
    else name
  }

  /** Position `k` holds the last space of `name`. */
  predicate LastSpaceAt(name: string, k: int) {
    0 <= k < |name| && name[k] == ' ' && ' ' !in name[k + 1..]
  }

  /** The last part of a split on spaces is what follows the last space, and the others joined are what precedes it. */
  lemma LastPartAfterLastSpace(name: string)
    requires |Strings.Split(name, ' ')| > 1
    ensures var parts := Strings.Split(name, ' ');
      var k := |name| - |parts[|parts| - 1]| - 1;
      && LastSpaceAt(name, k)
      && parts[|parts| - 1] == name[k + 1..] && Strings.Join(parts[..|parts| - 1], " ") == name[..k]
  {
    var parts := Strings.Split(name, ' ');
    var init := parts[..|parts| - 1];
    var last := parts[|parts| - 1];
    assert parts == init + [last];
    Strings.JoinSnoc(init, last, " ");
    Strings.JoinSplit(name, ' ');
    var rest := Strings.Join(init, " ");
    assert name == rest + " " + last;
    var k := |rest|;
    assert name[k + 1..] == last;
    assert name[..k] == rest;
  }

  /** A name without a space is printed as it is. */
  lemma NoSpaceUnchanged(name: string)
    requires ' ' !in name
    ensures Reordered(name) == name
  {
    Strings.SplitSingle(name, ' ');
  }

  /**
   * A name with a space becomes `last, rest`: splitting `rest` on spaces gives
   * the other parts in their order, and putting `last` back at the end gives
   * the name again, so no part is lost, added or reordered.
   */
  lemma ReorderedRoundTrip(name: string)
    requires ' ' in name
    ensures var parts := Strings.Split(name, ' ');
      var last := parts[|parts| - 1];
      var rest := Strings.Join(parts[..|parts| - 1], " ");
      && Reordered(name) == last + ", " + rest
      && Strings.Split(rest, ' ') == parts[..|parts| - 1]
      && Strings.Join(Strings.Split(rest, ' ') + [last], " ") == name
  {
    var parts := Strings.Split(name, ' ');
    Strings.SplitSingle(name, ' ');
    var init := parts[..|parts| - 1];
    Strings.SplitJoin(init, ' ');
    assert init + [parts[|parts| - 1]] == parts;
    Strings.JoinSplit(name, ' ');
  }

  /** The reordered name holds the same words as the name, each as often. */
  lemma ReorderedSameWords(name: string)
    requires ' ' in name
    ensures var parts := Strings.Split(name, ' ');
      var rest := Strings.Join(parts[..|parts| - 1], " ");
      multiset([parts[|parts| - 1]] + Strings.Split(rest, ' ')) == multiset(parts)
  {
    var parts := Strings.Split(name, ' ');
    Strings.SplitSingle(name, ' ');
    var init := parts[..|parts| - 1];
    Strings.SplitJoin(init, ' ');
    assert init + [parts[|parts| - 1]] == parts;
  }

  // ---------------------------------------------------------------------------
  // Printing

  datatype PrintCell = Num(n: nat) | Text(text: string)

  function Header(): (h: seq<string>)
    ensures |h| == 9
  {
    ["No.", "Admission No.", "Name", "", "", "", "", "", ""]
  }

  /** Row `i` (from 0) of the printed table. */
  function PrintRow(i: nat, s: Student): (row: seq<PrintCell>)
    ensures |row| == |Header()|
    ensures row[0] == Num(i + 1) && row[1] == Text(s.admissionNumber) && row[2] == Text(Reordered(s.name))
    ensures forall j :: 3 <= j < 9 ==> row[j] == Text("")
  {
    [Num(i + 1), Text(s.admissionNumber), Text(Reordered(s.name)),
     Text(""), Text(""), Text(""), Text(""), Text(""), Text("")]
  }

  /** The body: the listed students numbered 1..n in sorted order. */
  function Body(students: seq<Student>, classId: string): (b: seq<seq<PrintCell>>)
    ensures |b| == |Listed(students, classId)|
    ensures forall i :: 0 <= i < |b| ==> b[i] == PrintRow(i, Listed(students, classId)[i]) && b[i][0] == Num(i + 1)
  {
    var ls := Listed(students, classId);
    seq(|ls|, i requires 0 <= i < |ls| => PrintRow(i, ls[i]))
  }

  /**
   * The download name: the class name with its first space removed, then the
   * stream. A name without a space is kept whole; otherwise only the first
   * space goes, and a later one stays.
   */
  function FileName(c: Class): (name: string)
    ensures ' ' !in c.name ==> name == "ClassList-" + c.name + "-" + OrElse(c.stream, "") + ".pdf"
    ensures ' ' in c.name ==>
      var k := Strings.IndexOf(c.name, ' ');
      && ' ' !in c.name[..k] && c.name[k] == ' '
      && name == "ClassList-" + c.name[..k] + c.name[k + 1..] + "-" + OrElse(c.stream, "") + ".pdf"
  {
    "ClassList-" + Strings.ReplaceFirst(c.name, ' ', "") + "-" + OrElse(c.stream, "") + ".pdf"
  }

  /** Only the first space of the class name is dropped; a second one stays. */
  lemma FileNameDropsFirstSpace(c: Class)
    requires ' ' in c.name
    ensures var k := Strings.IndexOf(c.name, ' ');
      FileName(c) == "ClassList-" + c.name[..k] + c.name[k + 1..] + "-" + OrElse(c.stream, "") + ".pdf"
    ensures |FileName(c)| == |c.name| + |OrElse(c.stream, "")| + 14
  {
    Strings.ReplaceFirstRemoves(c.name, ' ');
  }

  /** What the print button leads to. */
  datatype PrintOutcome = Refused(message: string) | Silent | Printed(title: string, head: seq<string>, body: seq<seq<PrintCell>>, fileName: string)

  /** `handlePrint`: refused without a class, nothing for an unknown class, otherwise the document. */
  function HandlePrint(students: seq<Student>, classes: seq<Class>, selectedClassId: string): (o: PrintOutcome)
    ensures selectedClassId == "" ==> o == Refused("Please select a class to print.")
    ensures o.Printed? <==> selectedClassId != "" && ClassById(classes, selectedClassId).Some?
    ensures selectedClassId != "" && ClassById(classes, selectedClassId).None? ==> o == Silent
    ensures o.Printed? ==>
      var c := ClassById(classes, selectedClassId).value;
      && o.title == "Class List: " + c.name + " " + OrElse(c.stream, "")
      && o.head == Header()
      && o.body == Body(students, selectedClassId) && o.fileName == FileName(c)
  {
    if selectedClassId == "" then Refused("Please select a class to print.")
    else match ClassById(classes, selectedClassId)
      case None => Silent
      case Some(c) => Printed("Class List: " + c.name + " " + OrElse(c.stream, ""), Header(), Body(students, selectedClassId), FileName(c))
  }
}
