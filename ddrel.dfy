/**
 * Relation labelling of the DDRel dialogues (`ddrel_score_and_awkward_label.py`).
 * Every ".txt" file of the data folder, in sorted name order, holds one JSON
 * object per line; a line whose object has a context and a label becomes a
 * row (text, label). The label is then mapped to a relation score by a fixed
 * table, and a score of at most 3.0 marks the dialogue as awkward.
 * Listing the folder, reading a file and decoding a line of JSON are inputs:
 * `names`, `contents` and `decode` (None for a line that is not valid JSON).
 */
module Ddrel {
  import opened Wrappers
  import opened Text
  import opened Ordering

  /** A decoded JSON value; an object keeps its keys in document order. */
  datatype Json =
    | JNull
    | JBool(b: bool)
    | JInt(i: int)
    | JStr(s: string)
    | JArr(items: seq<Json>)
    | JObj(keys: seq<string>, fields: map<string, Json>)

  /** Python truthiness of a decoded value. */
  predicate Truthy(j: Json) {
    match j
    case JNull => false
    case JBool(b) => b
    case JInt(i) => i != 0
    case JStr(s) => s != ""
    case JArr(items) => items != []
    case JObj(keys, _) => keys != []
  }

  /** `obj.get(key)`: a missing key reads as None. */
  function Get(fields: map<string, Json>, key: string): Json {
    if key in fields then fields[key] else JNull
  }

  /** The exceptions the script does not catch; each one aborts the whole run. */
  datatype Crash =
    | NotAnObject       // `obj.get` on a decoded list, string or number
    | ContextNotText    // `" ".join(context)` over something other than strings
    | LabelNotInteger   // `int(label)` on a value it cannot convert

  /** One kept line. */
  datatype Record = Record(text: string, relation: int)

  predicate AllStrings(items: seq<Json>) {
    forall k :: 0 <= k < |items| ==> items[k].JStr?
  }

  /**
   * `" ".join(context)`: a list of strings, the characters of a string, or the
   * keys of an object; anything else (a list holding a non-string, a number,
   * a boolean, None) raises the one conversion error. A list of one string
   * joins to that string.
   */
  function JoinContext(context: Json): (r: Result<string, Crash>)
    ensures r.Failure? ==> r.error == ContextNotText
    ensures r.Success? <==> (context.JArr? && AllStrings(context.items)) || context.JStr? || context.JObj?
    ensures context.JArr? && |context.items| == 1 && context.items[0].JStr? ==> r == Success(context.items[0].s)
    ensures context.JStr? && |context.s| == 1 ==> r == Success(context.s)
  {
    match context
    case JArr(items) =>
      if AllStrings(items) then Success(Join(seq(|items|, k requires 0 <= k < |items| => items[k].s), " "))
      else Failure(ContextNotText)
    case JStr(s) =>
      var chars := seq(|s|, k requires 0 <= k < |s| => [s[k]]);
      assert |s| == 1 ==> chars[0] == s;
      Success(Join(chars, " "))
    case JObj(keys, _) => Success(Join(keys, " "))
    case _ => Failure(ContextNotText)
  }

  /**
   * `int(s)` for a string: surrounding whitespace, an optional sign, then
   * decimal digits; a string of digits alone reads as its base-10 value, and
   * an empty or all-whitespace string does not convert.
   */
  function IntOfString(s: string): (r: Option<int>)
    ensures s != [] && AllDigits(s) ==> r == Some(DigitsValue(s))
    ensures AllSpace(s) ==> r.None?
  {
    assert s != [] && AllDigits(s) ==> Strip(s) == s by {
      if s != [] && AllDigits(s) {
        StripUnpadded(s);
      }
    }
    assert AllSpace(s) ==> Strip(s) == [] by {
      StripSpec(s);
    }
    var t := Strip(s);
    var sign := if t != [] && (t[0] == '-' || t[0] == '+') then 1 else 0;
    var digits := t[sign..];
    if digits == [] || !AllDigits(digits) then None
    else
      var magnitude: int := DigitsValue(digits);
      Some(if sign == 1 && t[0] == '-' then -magnitude else magnitude)
  }

  /**
   * How `int` reads `s`: whitespace before `i`, an optional sign from `i` to
   * `j`, the digits `s[j..k]`, and only whitespace after them.
   */
  predicate IntLiteralParts(s: string, i: nat, j: nat, k: nat) {
    && i <= j < k <= |s|
    && AllSpace(s[..i]) && AllSpace(s[k..])
    && (j == i || (j == i + 1 && IsSign(s[i])))
    && AllDigits(s[j..k])
  }

  /** The pieces `IntOfString` computes on a string read as whitespace, sign, digits and whitespace. */
  lemma IntOfStringPieces(s: string, i: nat, j: nat, k: nat)
    requires IntLiteralParts(s, i, j, k)
    ensures Strip(s) == s[i..k]
    ensures (if s[i] == '-' || s[i] == '+' then 1 else 0) == j - i
    ensures s[i..k][j - i..] == s[j..k]
  {
    assert s[j..k][0] == s[j];
    assert s[k - 1] == s[j..k][k - 1 - j];
    StripPadded(s, i, k);
  }

  /** `int` of whitespace, an optional sign, digits and whitespace is the signed value of the digits. */
  lemma IntOfStringReadsAt(s: string, i: nat, j: nat, k: nat)
    requires IntLiteralParts(s, i, j, k)
    ensures IntOfString(s) == Some((if j == i + 1 && s[i] == '-' then -1 else 1) * DigitsValue(s[j..k]))
  {
    IntOfStringPieces(s, i, j, k);
  }

  /**
   * `int(w + sg + d + w2)` with whitespace `w` and `w2` around an optional sign
   * `sg` and digits `d` is the signed value of `d`: " -3 " reads -3.
   */
  lemma IntOfStringReads(w: string, sg: string, d: string, w2: string)
    requires AllSpace(w) && AllSpace(w2) && (sg == "" || sg == "+" || sg == "-")
    requires d != [] && AllDigits(d)
    ensures IntOfString(w + sg + d + w2) == Some((if sg == "-" then -1 else 1) * DigitsValue(d))
  {
    var s := w + sg + d + w2;
    var u := sg + (d + w2);
    assert s == w + u;
    var i, j, k := |w|, |w| + |sg|, |w| + |sg| + |d|;
    assert s[..i] == w;
    assert s[i..] == u;
    assert u[|sg|..] == d + w2;
    assert s[j..k] == (d + w2)[..|d|] == d;
    assert s[k..] == (d + w2)[|d|..] == w2;
    assert sg != "" ==> s[i] == u[0] == sg[0];
    IntOfStringReadsAt(s, i, j, k);
  }

  /** `int(s)` of a string converts exactly when the string is whitespace, an optional sign, digits and whitespace. */
  lemma IntOfStringNone(s: string)
    ensures IntOfString(s).None? <==> !exists i: nat, j: nat, k: nat :: IntLiteralParts(s, i, j, k)
  {
    if exists i: nat, j: nat, k: nat :: IntLiteralParts(s, i, j, k) {
      var i: nat, j: nat, k: nat :| IntLiteralParts(s, i, j, k);
      IntOfStringReadsAt(s, i, j, k);
    } else if IntOfString(s).Some? {
      var a := LeadingSpace(s);
      var t := s[a..];
      var b := TrailingSpace(t);
      var u := t[..|t| - b];
      assert u == Strip(s);
      var sign := if u != [] && (u[0] == '-' || u[0] == '+') then 1 else 0;
      var k := |s| - b;
      assert u == s[a..k];
      assert s[k..] == t[|t| - b..];
      assert u[sign..] == s[a + sign..k];
      assert IntLiteralParts(s, a, a + sign, k);
      assert false;
    }
  }

  /**
   * `int(label)`: a number is itself, a boolean is 0 or 1, a string of
   * digits is its base-10 value; None, a list or an object raises, and every
   * failure is the one conversion error.
   */
  function IntOf(value: Json): (r: Result<int, Crash>)
    ensures value.JInt? ==> r == Success(value.i)
    ensures value.JBool? ==> r.Success? && (r.value == 1 <==> value.b) && 0 <= r.value <= 1
    ensures value.JStr? && value.s != [] && AllDigits(value.s) ==> r == Success(DigitsValue(value.s))
    ensures value.JNull? || value.JArr? || value.JObj? ==> r.Failure?
    ensures r.Failure? ==> r.error == LabelNotInteger
  {
    match value
    case JInt(i) => Success(i)
    case JBool(b) => Success(if b then 1 else 0)
    case JStr(s) => (match IntOfString(s) case Some(i) => Success(i) case None => Failure(LabelNotInteger))
    case _ => Failure(LabelNotInteger)
  }

  /** `obj.get("context") or obj.get("컨텍스트")`. */
  function ContextOf(fields: map<string, Json>): Json {
    var primary := Get(fields, "context");
    if Truthy(primary) then primary else Get(fields, "컨텍스트")
  }

  /**
   * The body of the per-line `try`: a line that does not decode is skipped;
   * a record is produced exactly for a decoded object with a truthy context
   * (`context`, else `컨텍스트`) and a label that both convert, and it holds
   * the joined context and the integer label. Only the decoding error is
   * caught: a decoded value that is not an object, a context that does not
   * join or a label that does not convert aborts, the join's error first.
   */
  function LineRecord(decoded: Option<Json>): (r: Result<Option<Record>, Crash>)
    ensures decoded.None? ==> r == Success(None)
    ensures decoded.Some? && !decoded.value.JObj? ==> r == Failure(NotAnObject)
    ensures r.Success? && r.value.Some? <==>
              && decoded.Some? && decoded.value.JObj?
              && Truthy(ContextOf(decoded.value.fields))
              && !Get(decoded.value.fields, "label").JNull?
              && JoinContext(ContextOf(decoded.value.fields)).Success?
              && IntOf(Get(decoded.value.fields, "label")).Success?
    ensures r.Success? && r.value.Some? ==>
              var fields := decoded.value.fields;
              r.value.value == Record(JoinContext(ContextOf(fields)).value, IntOf(Get(fields, "label")).value)
    ensures r.Failure? <==>
              && decoded.Some?
              && (!decoded.value.JObj?
                  || (&& Truthy(ContextOf(decoded.value.fields))
                      && !Get(decoded.value.fields, "label").JNull?
                      && (JoinContext(ContextOf(decoded.value.fields)).Failure?
                          || IntOf(Get(decoded.value.fields, "label")).Failure?)))
    ensures r.Failure? && decoded.value.JObj? ==>
              var fields := decoded.value.fields;
              r.error == (if JoinContext(ContextOf(fields)).Failure? then ContextNotText else LabelNotInteger)
  {
    match decoded
    case None => Success(None)
    case Some(j) =>
      if !j.JObj? then Failure(NotAnObject)
      else
        var context := ContextOf(j.fields);
        var tag := Get(j.fields, "label");
        if !Truthy(context) || tag.JNull? then Success(None)
        else
          match JoinContext(context)
          case Failure(e) => Failure(e)
          case Success(text) =>
            match IntOf(tag)
            case Failure(e) => Failure(e)
            case Success(l) => Success(Some(Record(text, l)))
  }

  /** A list context of strings becomes its items joined by single spaces. */
  lemma ListContextJoined(items: seq<string>)
    requires items != []
    ensures var context := JArr(seq(|items|, k requires 0 <= k < |items| => JStr(items[k])));
      Truthy(context) && JoinContext(context) == Success(Join(items, " "))
  {
    var context := JArr(seq(|items|, k requires 0 <= k < |items| => JStr(items[k])));
    assert seq(|items|, k requires 0 <= k < |items| => context.items[k].s) == items;
  }

  /** The records of a file's lines, in line order; the first uncaught error aborts. */
  function FileRecords(lines: seq<string>, decode: string -> Option<Json>): Result<seq<Record>, Crash> {
    if lines == [] then Success([])
    else Step(FileRecords(lines[..|lines| - 1], decode), decode(lines[|lines| - 1]))
  }

  /** One iteration of the line loop: an earlier abort stands, otherwise the line's record is appended. */
  function Step(acc: Result<seq<Record>, Crash>, decoded: Option<Json>): Result<seq<Record>, Crash> {
    match acc
    case Failure(e) => Failure(e)
    case Success(rs) =>
      match LineRecord(decoded)
      case Failure(e) => Failure(e)
      case Success(None) => Success(rs)
      case Success(Some(r)) => Success(rs + [r])
  }

  /** Running two results one after the other: the first failure wins, otherwise the rows are concatenated. */
  function Then(a: Result<seq<Record>, Crash>, b: Result<seq<Record>, Crash>): Result<seq<Record>, Crash> {
    match a
    case Failure(e) => Failure(e)
    case Success(ra) =>
      match b
      case Failure(e) => Failure(e)
      case Success(rb) => Success(ra + rb)
  }

  /** The rows of two runs of lines are the rows of the first followed by those of the second. */
  lemma {:induction false} FileRecordsAppend(a: seq<string>, b: seq<string>, decode: string -> Option<Json>)
    ensures FileRecords(a + b, decode) == Then(FileRecords(a, decode), FileRecords(b, decode))
    decreases |b|
  {
    if b == [] {
      assert a + b == a;
      var x := FileRecords(a, decode);
      if x.Success? {
        assert x.value + [] == x.value;
      }
    } else {
      var b' := b[..|b| - 1];
      assert (a + b)[..|a + b| - 1] == a + b';
      assert (a + b)[|a + b| - 1] == b[|b| - 1];
      FileRecordsAppend(a, b', decode);
      ThenStep(FileRecords(a, decode), FileRecords(b', decode), decode(b[|b| - 1]));
    }
  }

  lemma ThenStep(x: Result<seq<Record>, Crash>, y: Result<seq<Record>, Crash>, decoded: Option<Json>)
    ensures Then(x, Step(y, decoded)) == Step(Then(x, y), decoded)
  {
    if x.Success? && y.Success? && LineRecord(decoded).Success? && LineRecord(decoded).value.Some? {
      assert x.value + (y.value + [LineRecord(decoded).value.value])
          == (x.value + y.value) + [LineRecord(decoded).value.value];
    }
  }

  /** A line that is not valid JSON is skipped: the rows are those of the other lines. */
  lemma BrokenLineSkipped(before: seq<string>, line: string, after: seq<string>, decode: string -> Option<Json>)
    requires decode(line).None?
    ensures FileRecords(before + [line] + after, decode) == FileRecords(before + after, decode)
  {
    FileRecordsAppend(before + [line], after, decode);
    FileRecordsAppend(before, [line], decode);
    FileRecordsAppend(before, after, decode);
    assert [line][..0] == [];
    assert FileRecords([line], decode) == Success([]);
  }

  /** A line that decodes but does not convert stops the file with its error, whatever follows. */
  lemma BadLineAborts(before: seq<string>, line: string, after: seq<string>, decode: string -> Option<Json>)
    requires FileRecords(before, decode).Success?
    requires LineRecord(decode(line)).Failure?
    ensures FileRecords(before + [line] + after, decode) == Failure(LineRecord(decode(line)).error)
  {
    assert (before + [line])[..|before|] == before;
    AbortPersists(before + [line], before + [line] + after, decode);
  }

  /** `{"context": "ab", "label": []}`: `int([])` raises, so the line aborts instead of being skipped. */
  lemma ListLabelAborts()
    ensures LineRecord(Some(JObj(["context", "label"], map["context" := JStr("ab"), "label" := JArr([])])))
            == Failure(LabelNotInteger)
  {
  }

  /** The ".txt" names among `names`, in the order given. */
  function TextFiles(names: seq<string>): (r: seq<string>)
    ensures forall n :: n in r <==> n in names && EndsWith(n, ".txt")
  {
    if names == [] then []
    else (if EndsWith(names[0], ".txt") then [names[0]] else []) + TextFiles(names[1..])
  }

  /** The folder's ".txt" files in the order the script visits them (`sorted(os.listdir(...))`). */
  function VisitOrder(names: seq<string>): seq<string> {
    TextFiles(SortStrings(names))
  }

  /** The order keeps only ".txt" names from the folder, all of them, in sorted order. */
  lemma VisitOrderSpec(names: seq<string>)
    ensures forall n :: n in VisitOrder(names) <==> n in names && EndsWith(n, ".txt")
    ensures StrSorted(VisitOrder(names))
  {
    var sorted := SortStrings(names);
    forall n ensures n in sorted <==> n in names {
      assert n in sorted <==> n in multiset(sorted);
    }
    TextFilesSorted(sorted);
  }

  lemma {:induction false} TextFilesSorted(s: seq<string>)
    requires StrSorted(s)
    ensures StrSorted(TextFiles(s))
  {
    if s != [] {
      TextFilesSorted(s[1..]);
      var rest := TextFiles(s[1..]);
      if EndsWith(s[0], ".txt") {
        var r := [s[0]] + rest;
        forall i, j | 0 <= i < j < |r| ensures !StrLess(r[j], r[i]) {
          if i == 0 {
            assert r[j] in s[1..];
            var k :| 0 <= k < |s[1..]| && s[1..][k] == r[j];
            assert s[k + 1] == r[j];
          } else {
            assert r[i] == rest[i - 1] && r[j] == rest[j - 1];
          }
        }
      }
    }
  }

  /** The rows of the files in the given order: file by file, line by line. */
  function AllRecords(files: seq<string>, contents: string -> seq<string>, decode: string -> Option<Json>)
    : Result<seq<Record>, Crash>
  {
    if files == [] then Success([])
    else Then(AllRecords(files[..|files| - 1], contents, decode), FileRecords(contents(files[|files| - 1]), decode))
  }

  /** The `texts`/`labels` collection loop: the rows of the whole folder. */
  function Records(names: seq<string>, contents: string -> seq<string>, decode: string -> Option<Json>)
    : Result<seq<Record>, Crash>
  {
    AllRecords(VisitOrder(names), contents, decode)
  }

  /** The nested loops over files and lines, appending one row per kept line. */
  method CollectRecords(names: seq<string>, contents: string -> seq<string>, decode: string -> Option<Json>)
    returns (r: Result<seq<Record>, Crash>)
    ensures r == Records(names, contents, decode)
  {
    var files := VisitOrder(names);
    var rows: seq<Record> := [];
    var f := 0;
    while f < |files|
      invariant 0 <= f <= |files|
      invariant AllRecords(files[..f], contents, decode) == Success(rows)
    {
      var lines := contents(files[f]);
      var fileRows := ReadFile(lines, decode);
      if fileRows.Failure? {
        assert files[..f + 1][..f] == files[..f];
        TailFailureAborts(files[..f + 1], files, contents, decode);
        return Failure(fileRows.error);
      }
      assert files[..f + 1][..f] == files[..f];
      rows := rows + fileRows.value;
      f := f + 1;
    }
    assert files[..f] == files;
    r := Success(rows);
  }

  /** The loop over one file's lines. */
  method ReadFile(lines: seq<string>, decode: string -> Option<Json>) returns (r: Result<seq<Record>, Crash>)
    ensures r == FileRecords(lines, decode)
  {
    var rows: seq<Record> := [];
    var i := 0;
    while i < |lines|
      invariant 0 <= i <= |lines|
      invariant FileRecords(lines[..i], decode) == Success(rows)
    {
      assert lines[..i + 1][..i] == lines[..i];
      var outcome := LineRecord(decode(lines[i]));
      match outcome {
        case Failure(e) =>
          AbortPersists(lines[..i + 1], lines, decode);
          return Failure(e);
        case Success(None) =>
        case Success(Some(record)) =>
          rows := rows + [record];
      }
      i := i + 1;
    }
    assert lines[..i] == lines;
    r := Success(rows);
  }

  /** Once a prefix of the lines aborts, the whole file aborts with the same error. */
  lemma AbortPersists(prefix: seq<string>, lines: seq<string>, decode: string -> Option<Json>)
    requires prefix <= lines
    requires FileRecords(prefix, decode).Failure?
    ensures FileRecords(lines, decode) == FileRecords(prefix, decode)
  {
    assert lines == prefix + lines[|prefix|..];
    FileRecordsAppend(prefix, lines[|prefix|..], decode);
  }

  /** Once a prefix of the files aborts, the whole run aborts with the same error. */
  lemma {:induction false} TailFailureAborts(prefix: seq<string>, files: seq<string>,
                                             contents: string -> seq<string>, decode: string -> Option<Json>)
    requires prefix <= files
    requires AllRecords(prefix, contents, decode).Failure?
    ensures AllRecords(files, contents, decode) == AllRecords(prefix, contents, decode)
    decreases |files|
  {
    if |files| > |prefix| {
      var shorter := files[..|files| - 1];
      assert prefix <= shorter;
      TailFailureAborts(prefix, shorter, contents, decode);
    } else {
      assert files == prefix;
    }
  }

  // ---------------------------------------------------------------------------
  // Labels, scores and the awkward flag

  /** `label_to_score`. */
  const LabelToScore: map<int, real> := map[
    1 := 5.0, 3 := 4.5, 4 := 3.9, 5 := 4.8, 6 := 4.0,
    7 := 4.2, 8 := 3.0, 10 := 2.5, 11 := 1.5, 13 := 0.5]

  /** `df["label"].map(label_to_score)`: None stands for the NaN of an unlisted label. */
  function Score(relation: int): (s: Option<real>)
    ensures s.Some? <==> relation in LabelToScore
  {
    if relation in LabelToScore then Some(LabelToScore[relation]) else None
  }

  /** `1 if s <= 3.0 else 0`; a NaN score compares false. */
  function AwkwardFlag(score: Option<real>): (flag: nat)
    ensures flag == 1 <==> score.Some? && score.value <= 3.0
    ensures flag <= 1
  {
    if score.Some? && score.value <= 3.0 then 1 else 0
  }

  /** One output row. */
  datatype Row = Row(text: string, relation: int, score: Option<real>, awkward: nat)

  /**
   * The labelled table: one row per record, in order, with its text and
   * relation; a score exactly for the ten listed labels, and the awkward flag
   * set exactly for labels 8, 10, 11 and 13.
   */
  function Labelled(records: seq<Record>): (rows: seq<Row>)
    ensures |rows| == |records|
    ensures forall k :: 0 <= k < |rows| ==>
              && rows[k].text == records[k].text && rows[k].relation == records[k].relation
              && (rows[k].score.Some? <==> records[k].relation in {1, 3, 4, 5, 6, 7, 8, 10, 11, 13})
              && (rows[k].score.Some? ==> rows[k].score.value == LabelToScore[records[k].relation])
              && rows[k].awkward <= 1
              && (rows[k].awkward == 1 <==> records[k].relation in {8, 10, 11, 13})
  {
    assert forall k :: 0 <= k < |records| ==>
             && (Score(records[k].relation).Some? <==> records[k].relation in {1, 3, 4, 5, 6, 7, 8, 10, 11, 13})
             && (AwkwardFlag(Score(records[k].relation)) == 1 <==> records[k].relation in {8, 10, 11, 13}) by {
      forall k | 0 <= k < |records| {
        AwkwardLabels(records[k].relation);
      }
    }
    seq(|records|, k requires 0 <= k < |records| =>
      var s := Score(records[k].relation); Row(records[k].text, records[k].relation, s, AwkwardFlag(s)))
  }

  /**
   * The table has exactly ten labels; labels 8, 10, 11 and 13 are awkward,
   * the other listed labels and every unlisted label are not.
   */
  lemma AwkwardLabels(relation: int)
    ensures Score(relation).Some? <==> relation in {1, 3, 4, 5, 6, 7, 8, 10, 11, 13}
    ensures AwkwardFlag(Score(relation)) == 1 <==> relation in {8, 10, 11, 13}
  {
  }
}
