/**
 The question library of `src/nested.ts`: sixteen operations over an ordered
 list of quiz questions. Every operation leaves its input alone and returns a
 new list or a derived value, so lists are Dafny sequences. The operations
 that build their result by copying the list and then splicing or assigning
 into the copy are methods over a local sequence variable; the others are
 functions.

 `makeBlankQuestion` and `duplicateQuestion` live in a module that is not part
 of this model; the operations that call them take them as parameters, and
 the contracts speak about whatever those calls return.
 */
module Nested {
  import opened Builtins

  datatype QuestionType = ShortAnswer | MultipleChoice

  datatype Question = Question(
    id: int,
    name: string,
    qtype: QuestionType,
    body: string,
    expected: string,
    options: seq<string>,
    points: int,
    published: bool)

  datatype Answer = Answer(questionId: int, text: string, submitted: bool, correct: bool)

  /** `Question | null` as returned by findQuestion. */
  datatype Option<T> = None | Some(value: T)

  /** A question with no body, no expected answer and no options. */
  predicate IsEmptyQuestion(q: Question)
  {
    q.body == "" && q.expected == "" && |q.options| == 0
  }

  predicate HasId(qs: seq<Question>, id: int)
  {
    exists i | 0 <= i < |qs| :: qs[i].id == id
  }

  /** `s` is obtained from `t` by deleting zero or more elements, order kept. */
  ghost predicate IsSubsequence<T>(s: seq<T>, t: seq<T>)
    decreases |t|
  {
    s == [] || (t != [] && ((s[0] == t[0] && IsSubsequence(s[1..], t[1..])) || IsSubsequence(s, t[1..])))
  }

  // ---------------------------------------------------------------------------
  // Filters

  /** getPublishedQuestions: the published questions, in their original order. */
  function GetPublishedQuestions(qs: seq<Question>): (r: seq<Question>)
    ensures forall i | 0 <= i < |r| :: r[i].published
    ensures forall i | 0 <= i < |qs| && qs[i].published :: qs[i] in r
    ensures IsSubsequence(r, qs)
  {
    if qs == [] then []
    else
      var rest := GetPublishedQuestions(qs[1..]);
      assert qs == [qs[0]] + qs[1..];
      if qs[0].published then
        assert ([qs[0]] + rest)[1..] == rest;
        [qs[0]] + rest
      else
        rest
  }

  /** getNonEmptyQuestions: the questions that are not empty, in their original order. */
  function GetNonEmptyQuestions(qs: seq<Question>): (r: seq<Question>)
    ensures forall i | 0 <= i < |r| :: !IsEmptyQuestion(r[i])
    ensures forall i | 0 <= i < |qs| && !IsEmptyQuestion(qs[i]) :: qs[i] in r
    ensures IsSubsequence(r, qs)
  {
    if qs == [] then []
    else
      var q := qs[0];
      var rest := GetNonEmptyQuestions(qs[1..]);
      assert qs == [q] + qs[1..];
      if q.body != "" || q.expected != "" || |q.options| != 0 then
        assert ([q] + rest)[1..] == rest;
        [q] + rest
      else
        rest
  }

  /** Filtering commutes with concatenation: together with the one-element case
      this pins the filter down to "keep exactly the published ones, in order". */
  lemma {:induction false} PublishedAppend(a: seq<Question>, b: seq<Question>)
    ensures GetPublishedQuestions(a + b) == GetPublishedQuestions(a) + GetPublishedQuestions(b)
  {
    if a != [] {
      var ab := a + b;
      assert ab[0] == a[0] && ab[1..] == a[1..] + b;
      PublishedAppend(a[1..], b);
    } else {
      assert a + b == b;
    }
  }

  lemma {:induction false} NonEmptyAppend(a: seq<Question>, b: seq<Question>)
    ensures GetNonEmptyQuestions(a + b) == GetNonEmptyQuestions(a) + GetNonEmptyQuestions(b)
  {
    if a != [] {
      var ab := a + b;
      assert ab[0] == a[0] && ab[1..] == a[1..] + b;
      NonEmptyAppend(a[1..], b);
    } else {
      assert a + b == b;
    }
  }

  /** Each published question is kept as many times as it occurs, each other one never:
      with IsSubsequence this says the filter keeps exactly the published questions. */
  lemma {:induction false} PublishedMultiplicity(qs: seq<Question>, q: Question)
    ensures multiset(GetPublishedQuestions(qs))[q] == if q.published then multiset(qs)[q] else 0
  {
    if qs != [] {
      PublishedMultiplicity(qs[1..], q);
      assert qs == [qs[0]] + qs[1..];
      assert multiset(qs) == multiset{qs[0]} + multiset(qs[1..]);
    }
  }

  lemma {:induction false} NonEmptyMultiplicity(qs: seq<Question>, q: Question)
    ensures multiset(GetNonEmptyQuestions(qs))[q] == if !IsEmptyQuestion(q) then multiset(qs)[q] else 0
  {
    if qs != [] {
      NonEmptyMultiplicity(qs[1..], q);
      assert qs == [qs[0]] + qs[1..];
      assert multiset(qs) == multiset{qs[0]} + multiset(qs[1..]);
    }
  }

  // ---------------------------------------------------------------------------
  // Lookups

  /** `findIndex(question => question.id === id)`: the first matching index, or -1. */
  function IndexOfId(qs: seq<Question>, id: int): (k: int)
    ensures -1 <= k < |qs|
    ensures k == -1 <==> !HasId(qs, id)
    ensures k >= 0 ==> qs[k].id == id && forall j | 0 <= j < k :: qs[j].id != id
  {
    if qs == [] then -1
    else if qs[0].id == id then 0
    else
      var k := IndexOfId(qs[1..], id);
      assert forall j | 1 <= j < |qs| :: qs[j] == qs[1..][j - 1];
      if k == -1 then -1 else k + 1
  }

  /** findQuestion: the first question carrying `id`, or None when there is none. */
  function FindQuestion(qs: seq<Question>, id: int): (r: Option<Question>)
    ensures r.None? <==> !HasId(qs, id)
    ensures r.Some? ==> exists k | 0 <= k < |qs| ::
      qs[k] == r.value && qs[k].id == id && forall j | 0 <= j < k :: qs[j].id != id
  {
    var questionIndex := IndexOfId(qs, id);
    if questionIndex == -1 then None else Some(qs[questionIndex])
  }

  /** removeQuestion: deletes the first question carrying `id`; a copy of the list when none does. */
  method RemoveQuestion(qs: seq<Question>, id: int) returns (r: seq<Question>)
    ensures !HasId(qs, id) ==> r == qs
    ensures HasId(qs, id) ==> |r| == |qs| - 1
    ensures HasId(qs, id) ==>
      var k := IndexOfId(qs, id);
      r[..k] == qs[..k] && r[k..] == qs[k + 1..]
    ensures FindQuestion(qs, id).Some? ==>
      var k := IndexOfId(qs, id);
      r[..k] + [FindQuestion(qs, id).value] + r[k..] == qs
  {
    var copy := qs;
    var questionIndex := IndexOfId(copy, id);
    if questionIndex == -1 {
      return copy;
    }
    copy := Splice(copy, questionIndex, 1, []);
    assert copy[..questionIndex] == qs[..questionIndex];
    assert copy[questionIndex..] == qs[questionIndex + 1..];
    assert qs == qs[..questionIndex] + [qs[questionIndex]] + qs[questionIndex + 1..];
    return copy;
  }

  // ---------------------------------------------------------------------------
  // Projections and aggregates

  /** getNames: the names, position by position. */
  function GetNames(qs: seq<Question>): (r: seq<string>)
    ensures |r| == |qs|
    ensures forall i | 0 <= i < |qs| :: r[i] == qs[i].name
  {
    if qs == [] then [] else [qs[0].name] + GetNames(qs[1..])
  }

  /** sumPoints: `reduce((total, q) => total + q.points, 0)`, a left fold. */
  function SumPoints(qs: seq<Question>): (r: int)
    ensures qs == [] ==> r == 0
    ensures (forall i | 0 <= i < |qs| :: qs[i].points >= 0) ==> r >= 0
  {
    if qs == [] then 0 else SumPoints(qs[..|qs| - 1]) + qs[|qs| - 1].points
  }

  /** The total over a concatenation is the sum of the totals. */
  lemma {:induction false} SumPointsAppend(a: seq<Question>, b: seq<Question>)
    ensures SumPoints(a + b) == SumPoints(a) + SumPoints(b)
  {
    if b != [] {
      assert (a + b)[..|a + b| - 1] == a + b[..|b| - 1];
      assert (a + b)[|a + b| - 1] == b[|b| - 1];
      SumPointsAppend(a, b[..|b| - 1]);
    } else {
      assert a + b == a;
    }
  }

  /** The questions getPublishedQuestions drops. */
  ghost function Unpublished(qs: seq<Question>): seq<Question>
  {
    if qs == [] then [] else (if qs[0].published then [] else [qs[0]]) + Unpublished(qs[1..])
  }

  /** The total splits into the published total and the unpublished total. */
  lemma {:induction false} PointsSplit(qs: seq<Question>)
    ensures SumPoints(qs) == SumPoints(GetPublishedQuestions(qs)) + SumPoints(Unpublished(qs))
  {
    if qs != [] {
      var head := if qs[0].published then [qs[0]] else [];
      var tail := if qs[0].published then [] else [qs[0]];
      PointsSplit(qs[1..]);
      assert qs == [qs[0]] + qs[1..];
      SumPointsAppend([qs[0]], qs[1..]);
      SumPointsAppend(head, GetPublishedQuestions(qs[1..]));
      SumPointsAppend(tail, Unpublished(qs[1..]));
      assert SumPoints([qs[0]]) == SumPoints([]) + qs[0].points;
    }
  }

  /** sumPublishedPoints: filter the published questions, then add up their points. */
  function SumPublishedPoints(qs: seq<Question>): (r: int)
    ensures r == SumPoints(qs) - SumPoints(Unpublished(qs))
  {
    PointsSplit(qs);
    SumPoints(GetPublishedQuestions(qs))
  }

  /** With non-negative points the published total is bounded by the full total. */
  lemma PublishedPointsBounded(qs: seq<Question>)
    requires forall i | 0 <= i < |qs| :: qs[i].points >= 0
    ensures 0 <= SumPublishedPoints(qs) <= SumPoints(qs)
  {
    var pub := GetPublishedQuestions(qs);
    var unpub := Unpublished(qs);
    UnpublishedMembers(qs);
    forall i | 0 <= i < |pub| ensures pub[i].points >= 0 {
      PublishedMultiplicity(qs, pub[i]);
      assert pub[i] in multiset(qs);
    }
    forall i | 0 <= i < |unpub| ensures unpub[i].points >= 0 {
      assert unpub[i] in qs;
    }
  }

  lemma {:induction false} UnpublishedMembers(qs: seq<Question>)
    ensures forall q | q in Unpublished(qs) :: q in qs
  {
    if qs != [] {
      UnpublishedMembers(qs[1..]);
    }
  }

  /** The header row of the CSV export. */
  const Header: string := "id,name,options,points,published"

  /** `true` / `false` as `Array.prototype.join` writes a boolean. */
  function BoolToString(b: bool): string
  {
    if b then "true" else "false"
  }

  /** The five cells of one question's CSV row. */
  function CsvFields(q: Question): seq<string>
  {
    [IntToString(q.id), q.name, IntToString(|q.options|), IntToString(q.points), BoolToString(q.published)]
  }

  /** One CSV row: the five cells joined by commas, with no quoting. */
  function CsvRow(q: Question): string
  {
    Join(CsvFields(q), ',')
  }

  function CsvRows(qs: seq<Question>): (r: seq<string>)
    ensures |r| == |qs|
    ensures forall i | 0 <= i < |qs| :: r[i] == CsvRow(qs[i])
  {
    if qs == [] then [] else [CsvRow(qs[0])] + CsvRows(qs[1..])
  }

  /** toCSV: the header, a line break, then the rows joined by line breaks. */
  function ToCSV(qs: seq<Question>): (r: string)
    ensures |r| > |Header| && r[..|Header| + 1] == Header + "\n"
    ensures qs == [] ==> r == Header + "\n"
  {
    Header + "\n" + Join(CsvRows(qs), '\n')
  }

  /** Reading the export line by line gives the header and then one row per question, in
      order; an empty list still leaves one (empty) line after the header. */
  lemma CsvLines(qs: seq<Question>)
    requires forall i | 0 <= i < |qs| :: '\n' !in qs[i].name
    ensures qs == [] ==> Split(ToCSV(qs), '\n') == [Header, ""]
    ensures qs != [] ==> Split(ToCSV(qs), '\n') == [Header] + CsvRows(qs)
  {
    var rows := CsvRows(qs);
    forall i | 0 <= i < |rows| ensures '\n' !in rows[i] {
      RowHasNoLineBreak(qs[i]);
    }
    var tail := if qs == [] then [""] else rows;
    var lines := [Header] + tail;
    JoinCons(Header, tail, '\n');
    assert Join(tail, '\n') == Join(rows, '\n');
    assert Join(lines, '\n') == ToCSV(qs);
    HeaderHasNoLineBreak();
    forall x | x in lines ensures '\n' !in x {
      if x != Header {
        assert x in tail;
      }
    }
    SplitJoin(lines, '\n');
  }

  lemma HeaderHasNoLineBreak()
    ensures '\n' !in Header
  {
  }

  lemma RowHasNoLineBreak(q: Question)
    requires '\n' !in q.name
    ensures '\n' !in CsvRow(q)
  {
    IntToStringHasNoSeparator(q.id);
    IntToStringHasNoSeparator(|q.options|);
    IntToStringHasNoSeparator(q.points);
    assert '\n' !in BoolToString(q.published);
    JoinAvoids(CsvFields(q), ',', '\n');
  }

  /** A row read back cell by cell gives the id, the number of options, the points and the
      published flag, provided the name holds no comma (the export does no escaping). */
  lemma CsvRowFields(q: Question)
    requires ',' !in q.name
    ensures Split(CsvRow(q), ',') == CsvFields(q)
    ensures var cells := CsvFields(q);
      && ParseInt(cells[0]) == q.id
      && cells[1] == q.name
      && ParseInt(cells[2]) == |q.options|
      && ParseInt(cells[3]) == q.points
      && cells[4] == (if q.published then "true" else "false")
  {
    var f := CsvFields(q);
    IntToStringHasNoSeparator(q.id);
    IntToStringHasNoSeparator(|q.options|);
    IntToStringHasNoSeparator(q.points);
    assert ',' !in BoolToString(q.published);
    SplitJoin(f, ',');
    IntToStringRoundTrip(q.id);
    IntToStringRoundTrip(|q.options|);
    IntToStringRoundTrip(q.points);
  }

  /** The worked example of the export: one published question "Addition". */
  lemma CsvExample()
    ensures ToCSV([Question(1, "Addition", ShortAnswer, "What is 1+1?", "2", [], 1, true)])
         == Header + "\n" + "1,Addition,0,1,true"
  {
    var q := Question(1, "Addition", ShortAnswer, "What is 1+1?", "2", [], 1, true);
    CsvExampleRow(q);
    assert CsvRows([q]) == [CsvRow(q)];
  }

  lemma CsvExampleRow(q: Question)
    requires q == Question(1, "Addition", ShortAnswer, "What is 1+1?", "2", [], 1, true)
    ensures CsvRow(q) == "1,Addition,0,1,true"
  {
    CsvExampleFields(q);
    CsvExampleJoin();
  }

  lemma CsvExampleFields(q: Question)
    requires q == Question(1, "Addition", ShortAnswer, "What is 1+1?", "2", [], 1, true)
    ensures CsvFields(q) == ["1", "Addition", "0", "1", "true"]
  {
    assert NatToString(1) == "1";
    assert NatToString(0) == "0";
  }

  lemma CsvExampleJoin()
    ensures Join(["1", "Addition", "0", "1", "true"], ',') == "1,Addition,0,1,true"
  {
    JoinCons("1", ["true"], ',');
    JoinCons("0", ["1", "true"], ',');
    JoinCons("Addition", ["0", "1", "true"], ',');
    JoinCons("1", ["Addition", "0", "1", "true"], ',');
  }

  /** makeAnswers: one fresh, unsubmitted answer per question, same order. */
  function MakeAnswers(qs: seq<Question>): (r: seq<Answer>)
    ensures |r| == |qs|
    ensures forall i | 0 <= i < |qs| ::
      r[i].questionId == qs[i].id && r[i].text == "" && !r[i].submitted && !r[i].correct
  {
    if qs == [] then [] else [Answer(qs[0].id, "", false, false)] + MakeAnswers(qs[1..])
  }

  /** publishAll: every question published, nothing else touched. */
  function PublishAll(qs: seq<Question>): (r: seq<Question>)
    ensures |r| == |qs|
    ensures forall i | 0 <= i < |qs| :: r[i].published && r[i].(published := qs[i].published) == qs[i]
  {
    if qs == [] then [] else [qs[0].(published := true)] + PublishAll(qs[1..])
  }

  /** After publishAll, filtering on `published` keeps everything. */
  lemma {:induction false} PublishAllThenFilter(qs: seq<Question>)
    ensures GetPublishedQuestions(PublishAll(qs)) == PublishAll(qs)
  {
    if qs != [] {
      var p := PublishAll(qs);
      assert p[1..] == PublishAll(qs[1..]);
      PublishAllThenFilter(qs[1..]);
    }
  }

  /** After publishAll every point is published: the published total is the full total. */
  lemma {:induction false} PublishAllPoints(qs: seq<Question>)
    ensures SumPublishedPoints(PublishAll(qs)) == SumPoints(qs)
  {
    PublishAllThenFilter(qs);
    PublishAllKeepsPoints(qs);
  }

  lemma {:induction false} PublishAllKeepsPoints(qs: seq<Question>)
    ensures SumPoints(PublishAll(qs)) == SumPoints(qs)
  {
    if qs != [] {
      var n := |qs| - 1;
      var p := PublishAll(qs);
      assert p[..n] == PublishAll(qs[..n]);
      PublishAllKeepsPoints(qs[..n]);
    }
  }

  /** `questions.every(q => q.type === t)`. */
  function AllOfType(qs: seq<Question>, t: QuestionType): (r: bool)
    ensures r <==> forall i | 0 <= i < |qs| :: qs[i].qtype == t
  {
    qs == [] || (qs[0].qtype == t && AllOfType(qs[1..], t))
  }

  /** sameType: all questions share one type (true on the empty list). */
  function SameType(qs: seq<Question>): (r: bool)
    ensures r <==> forall i, j | 0 <= i < |qs| && 0 <= j < |qs| :: qs[i].qtype == qs[j].qtype
  {
    var allMult := AllOfType(qs, MultipleChoice);
    var allShort := AllOfType(qs, ShortAnswer);
    assert qs != [] && (forall i, j | 0 <= i < |qs| && 0 <= j < |qs| :: qs[i].qtype == qs[j].qtype)
      ==> (forall i | 0 <= i < |qs| :: qs[i].qtype == qs[0].qtype);
    allMult || allShort
  }

  // ---------------------------------------------------------------------------
  // Edits

  /** addNewQuestion: the list with `makeBlank(id, name, type)` spliced in at the end. */
  method AddNewQuestion(
    qs: seq<Question>, id: int, name: string, qtype: QuestionType,
    makeBlank: (int, string, QuestionType) -> Question)
    returns (r: seq<Question>)
    ensures |r| == |qs| + 1
    ensures r[..|qs|] == qs
    ensures r[|qs|] == makeBlank(id, name, qtype)
  {
    var copy := qs;
    copy := Splice(copy, |qs|, 0, [makeBlank(id, name, qtype)]);
    assert copy[..|qs|] == qs;
    return copy;
  }

  /** renameQuestionById: every question carrying `targetId` gets `newName`; nothing else changes. */
  function RenameQuestionById(qs: seq<Question>, targetId: int, newName: string): (r: seq<Question>)
    ensures |r| == |qs|
    ensures forall i | 0 <= i < |qs| && qs[i].id != targetId :: r[i] == qs[i]
    ensures forall i | 0 <= i < |qs| && qs[i].id == targetId ::
      r[i].name == newName && r[i].(name := qs[i].name) == qs[i]
  {
    if qs == [] then []
    else
      var q := qs[0];
      [if q.id == targetId then q.(name := newName) else q] + RenameQuestionById(qs[1..], targetId, newName)
  }

  /** Renaming never changes an id, so every lookup by id finds the same position. */
  lemma {:induction false} RenameKeepsLookups(qs: seq<Question>, targetId: int, newName: string, id: int)
    ensures IndexOfId(RenameQuestionById(qs, targetId, newName), id) == IndexOfId(qs, id)
  {
    if qs != [] {
      var r := RenameQuestionById(qs, targetId, newName);
      assert r[1..] == RenameQuestionById(qs[1..], targetId, newName);
      RenameKeepsLookups(qs[1..], targetId, newName, id);
    }
  }

  /** changeQuestionTypeById: the first question carrying `targetId` gets `newType`; its
      options are cleared when the new type is short answer and kept otherwise. */
  method ChangeQuestionTypeById(qs: seq<Question>, targetId: int, newType: QuestionType)
    returns (r: seq<Question>)
    requires HasId(qs, targetId)
    ensures |r| == |qs|
    ensures var k := IndexOfId(qs, targetId);
      && (forall i | 0 <= i < |qs| && i != k :: r[i] == qs[i])
      && r[k].qtype == newType
      && r[k].options == (if newType == ShortAnswer then [] else qs[k].options)
      && r[k].(qtype := qs[k].qtype, options := qs[k].options) == qs[k]
  {
    var copy := qs;
    var targetIndex := IndexOfId(copy, targetId);
    if newType == ShortAnswer {
      copy := copy[targetIndex := qs[targetIndex].(qtype := newType, options := [])];
      return copy;
    }
    copy := copy[targetIndex := qs[targetIndex].(qtype := newType)];
    return copy;
  }

  /** The index editOption may be given: -1 to append, or a position in the options. */
  predicate ValidOptionIndex(q: Question, targetOptionIndex: int)
  {
    targetOptionIndex == -1 || 0 <= targetOptionIndex < |q.options|
  }

  /** editOption: in the first question carrying `targetId`, append `newOption` (index -1)
      or replace the option at the index; nothing else changes. */
  method EditOption(qs: seq<Question>, targetId: int, targetOptionIndex: int, newOption: string)
    returns (r: seq<Question>)
    requires HasId(qs, targetId)
    requires ValidOptionIndex(qs[IndexOfId(qs, targetId)], targetOptionIndex)
    ensures |r| == |qs|
    ensures var k := IndexOfId(qs, targetId);
      && (forall i | 0 <= i < |qs| && i != k :: r[i] == qs[i])
      && r[k].(options := qs[k].options) == qs[k]
      && (targetOptionIndex == -1 ==> r[k].options == qs[k].options + [newOption])
      && (targetOptionIndex != -1 ==>
            |r[k].options| == |qs[k].options| && r[k].options == qs[k].options[targetOptionIndex := newOption])
  {
    var copy := qs;
    var targetIndex := IndexOfId(copy, targetId);
    var copyOptions := copy[targetIndex].options;
    if targetOptionIndex == -1 {
      copyOptions := copyOptions + [newOption];
    } else {
      copyOptions := Splice(copyOptions, targetOptionIndex, 1, [newOption]);
      assert copyOptions == qs[targetIndex].options[targetOptionIndex := newOption];
    }
    copy := copy[targetIndex := copy[targetIndex].(options := copyOptions)];
    return copy;
  }

  /** duplicateQuestionInArray: `duplicate(newId, original)` inserted right after the first
      question carrying `targetId`; deleting it again gives the input back. */
  method DuplicateQuestionInArray(
    qs: seq<Question>, targetId: int, newId: int,
    duplicate: (int, Question) -> Question)
    returns (r: seq<Question>)
    requires HasId(qs, targetId)
    ensures |r| == |qs| + 1
    ensures var k := IndexOfId(qs, targetId);
      && r[..k + 1] == qs[..k + 1]
      && r[k + 1] == duplicate(newId, qs[k])
      && r[k + 2..] == qs[k + 1..]
      && r[..k + 1] + r[k + 2..] == qs
  {
    var copy := qs;
    var targetIndex := IndexOfId(copy, targetId);
    var duplicated := duplicate(newId, copy[targetIndex]);
    copy := Splice(copy, targetIndex + 1, 0, [duplicated]);
    assert copy[..targetIndex + 1] == qs[..targetIndex + 1];
    assert copy[targetIndex + 2..] == qs[targetIndex + 1..];
    return copy;
  }
}
