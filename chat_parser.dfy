/**
 * The chat-export parser (`extract_kakao_dialogues`, `extract_date_key`).
 *
 * Every line is classified once: a line where the date pattern
 * `(\d{4})년 (\d{1,2})월 (\d{1,2})일` occurs is a header and moves the date
 * cursor; otherwise a line where the message pattern
 * `[오전|오후]+\s*\d{1,2}:\d{2},\s*[^:]+:` occurs is a message line, whose
 * anchored `YYYY. M. D. <meridiem> H:MM, sender:` prefix is removed if present;
 * every other line is ignored. `[오전|오후]` is a character class over the four
 * characters 오, 전, | and 후, not an alternation of two words.
 */
module ChatParser {
  import opened Wrappers
  import opened Text

  // ---------------------------------------------------------------------------
  // Pattern pieces

  /** A member of the character class `[오전|오후]`. */
  predicate IsMeridiemChar(c: char) {
    c == '오' || c == '전' || c == '|' || c == '후'
  }

  /** Length of the run of `[오전|오후]` characters starting at `i`. */
  function MeridiemRun(s: string, i: nat): (n: nat)
    requires i <= |s|
    ensures i + n <= |s|
    ensures forall j :: i <= j < i + n ==> IsMeridiemChar(s[j])
    ensures i + n < |s| ==> !IsMeridiemChar(s[i + n])
    decreases |s| - i
  {
    if i == |s| || !IsMeridiemChar(s[i]) then 0 else 1 + MeridiemRun(s, i + 1)
  }

  // ---------------------------------------------------------------------------
  // The date header

  datatype Date = Date(year: nat, month: nat, day: nat)

  /** A `\d{1,2}` field at `i` closed by `close`: where the field's digits end. */
  function ShortFieldEnd(s: string, i: nat, close: char): (r: Option<nat>)
    requires i <= |s|
    ensures r.Some? ==> i + 1 <= r.value <= i + 2 && r.value < |s| && s[r.value] == close
                        && AllDigits(s[i..r.value])
  {
    var n := DigitRun(s, i);
    if 1 <= n <= 2 && i + n < |s| && s[i + n] == close then Some(i + n) else None
  }

  /** The date pattern matched at exactly position `i`, with the values of its three groups. */
  function DateAt(s: string, i: nat): (r: Option<Date>)
    requires i <= |s|
    ensures r.Some? ==> r.value.year < 10000 && r.value.month < 100 && r.value.day < 100
  {
    if i + 6 <= |s| && AllDigits(s[i..i + 4]) && s[i + 4] == '년' && s[i + 5] == ' ' then
      match ShortFieldEnd(s, i + 6, '월')
      case None => None
      case Some(m) =>
        if m + 2 <= |s| && s[m + 1] == ' ' then
          match ShortFieldEnd(s, m + 2, '일')
          case None => None
          case Some(d) =>
            var r := Date(DigitsValue(s[i..i + 4]), DigitsValue(s[i + 6..m]), DigitsValue(s[m + 2..d]));
            assert Pow10(4) == 10000 && Pow10(2) == 100;
            assert DigitsValue(s[i + 6..m]) < Pow10(m - (i + 6));
            assert DigitsValue(s[m + 2..d]) < Pow10(d - (m + 2));
            Some(r)
        else None
    else None
  }

  /** `re.search`: the leftmost position at or after `from` where the date pattern matches. */
  function FirstDateAt(s: string, from: nat): (r: Option<nat>)
    requires from <= |s|
    ensures r.Some? ==> from <= r.value <= |s| && DateAt(s, r.value).Some?
    ensures r.Some? ==> forall j :: from <= j < r.value ==> DateAt(s, j).None?
    ensures r.None? ==> forall j :: from <= j <= |s| ==> DateAt(s, j).None?
    decreases |s| - from
  {
    if DateAt(s, from).Some? then Some(from)
    else if from == |s| then None
    else FirstDateAt(s, from + 1)
  }

  /** `f"{y:04d}-{m:02d}-{d:02d}"`. */
  function DateKey(d: Date): (k: string)
    requires d.year < 10000 && d.month < 100 && d.day < 100
    ensures |k| == 10 && k[4] == '-' && k[7] == '-'
    ensures AllDigits(k[..4]) && AllDigits(k[5..7]) && AllDigits(k[8..])
  {
    assert Pow10(4) == 10000 && Pow10(2) == 100;
    var k := PadDigits(d.year, 4) + "-" + PadDigits(d.month, 2) + "-" + PadDigits(d.day, 2);
    assert k[..4] == PadDigits(d.year, 4) && k[5..7] == PadDigits(d.month, 2) && k[8..] == PadDigits(d.day, 2);
    k
  }

  /** Reads a `YYYY-MM-DD` key back into its three numbers. */
  function ParseDateKey(k: string): Date
    requires |k| == 10 && AllDigits(k[..4]) && AllDigits(k[5..7]) && AllDigits(k[8..])
  {
    Date(DigitsValue(k[..4]), DigitsValue(k[5..7]), DigitsValue(k[8..]))
  }

  /** The zero-padded key keeps the numbers of the header it came from. */
  lemma DateKeyRoundTrip(d: Date)
    requires d.year < 10000 && d.month < 100 && d.day < 100
    ensures ParseDateKey(DateKey(d)) == d
  {
    assert Pow10(4) == 10000 && Pow10(2) == 100;
    var k := DateKey(d);
    assert k[..4] == PadDigits(d.year, 4) && k[5..7] == PadDigits(d.month, 2) && k[8..] == PadDigits(d.day, 2);
    PadDigitsValue(d.year, 4);
    PadDigitsValue(d.month, 2);
    PadDigitsValue(d.day, 2);
  }

  /** `extract_date_key`: the key of the first date in the line, if any. */
  function ExtractDateKey(line: string): Option<string> {
    match FirstDateAt(line, 0)
    case None => None
    case Some(j) => Some(DateKey(DateAt(line, j).value))
  }

  /**
   * `extract_date_key` finds a key exactly when the date pattern occurs, and
   * the key is the zero-padded date of the leftmost occurrence.
   */
  lemma ExtractDateKeyLeftmost(line: string)
    ensures ExtractDateKey(line).Some? <==> exists j :: 0 <= j <= |line| && DateAt(line, j).Some?
    ensures ExtractDateKey(line).Some? ==>
              exists j :: 0 <= j <= |line| && DateAt(line, j).Some?
                          && (forall i :: 0 <= i < j ==> DateAt(line, i).None?)
                          && ExtractDateKey(line).value == DateKey(DateAt(line, j).value)
  {
  }

  // ---------------------------------------------------------------------------
  // The message line

  /**
   * `\s*\d{1,2}:\d{2},\s*[^:]+:` matched at exactly `k`: the index just past
   * the colon that closes the sender name.
   */
  function TimeSenderEnd(s: string, k: nat): (r: Option<nat>)
    requires k <= |s|
    ensures r.Some? ==> k < r.value <= |s| && s[r.value - 1] == ':'
  {
    var a := k + LeadingSpace(s[k..]);
    var n := DigitRun(s, a);
    var b := a + n;
    if 1 <= n <= 2 && b + 4 <= |s| && s[b] == ':' && IsDigit(s[b + 1]) && IsDigit(s[b + 2]) && s[b + 3] == ',' then
      var c := b + 4;
      var j := c + IndexOf(s[c..], ':');
      if c < j < |s| then Some(j + 1) else None
    else None
  }

  /**
   * `re.search(r"[오전|오후]+\s*\d{1,2}:\d{2},\s*[^:]+:", line)` succeeds: some
   * class character is directly followed by the time-and-sender tail.
   */
  predicate IsMessageLine(s: string) {
    exists k :: 1 <= k <= |s| && IsMeridiemChar(s[k - 1]) && TimeSenderEnd(s, k).Some?
  }

  /** `\d{1,2}\. ` at `i`: the index after the space. */
  function DotFieldEnd(s: string, i: nat): (r: Option<nat>)
    requires i <= |s|
    ensures r.Some? ==> i + 3 <= r.value <= |s|
  {
    match ShortFieldEnd(s, i, '.')
    case None => None
    case Some(e) => if e + 1 < |s| && s[e + 1] == ' ' then Some(e + 2) else None
  }

  /**
   * The anchored prefix `^\d{4}\. \d{1,2}\. \d{1,2}\. [오전|오후]+\s*\d{1,2}:\d{2},\s*[^:]+:\s*`:
   * its length when it matches.
   */
  function PrefixEnd(s: string): (r: Option<nat>)
    ensures r.Some? ==> r.value <= |s|
    ensures r.Some? ==> IsMessageLine(s)
  {
    if 6 <= |s| && AllDigits(s[..4]) && s[4] == '.' && s[5] == ' ' then
      match DotFieldEnd(s, 6)
      case None => None
      case Some(p) =>
        match DotFieldEnd(s, p)
        case None => None
        case Some(q) =>
          var m := MeridiemRun(s, q);
          if m == 0 then None
          else
            match TimeSenderEnd(s, q + m)
            case None => None
            case Some(e) =>
              assert 1 <= q + m <= |s| && IsMeridiemChar(s[q + m - 1]);
              Some(e + LeadingSpace(s[e..]))
    else None
  }

  /** The message text: the prefix removed when it matches, the line kept whole otherwise, then stripped. */
  function MessageText(line: string): (t: string)
    ensures PrefixEnd(line).None? ==> t == Strip(line)
    ensures PrefixEnd(line).Some? ==> t == Strip(line[PrefixEnd(line).value..])
  {
    match PrefixEnd(line)
    case Some(e) => Strip(line[e..])
    case None => Strip(line)
  }

  // ---------------------------------------------------------------------------
  // Line classification and the parse

  datatype LineKind = Header(key: string) | Message(text: string) | Ignored

  /** Header detection is tried first; message detection only when no date occurs in the line. */
  function Classify(line: string): LineKind {
    match ExtractDateKey(line)
    case Some(k) => Header(k)
    case None => if IsMessageLine(line) then Message(MessageText(line)) else Ignored
  }

  /**
   * A line where a date occurs is a header carrying the leftmost date's key,
   * even when it also looks like a message; any other line is a message
   * exactly when the message pattern occurs in it.
   */
  lemma HeaderTakesPrecedence(line: string)
    ensures (exists j :: 0 <= j <= |line| && DateAt(line, j).Some?) ==>
              Classify(line) == Header(ExtractDateKey(line).value)
    ensures (forall j :: 0 <= j <= |line| ==> DateAt(line, j).None?) ==>
              (Classify(line).Message? <==> IsMessageLine(line))
              && (Classify(line).Message? ==> Classify(line).text == MessageText(line))
  {
    ExtractDateKeyLeftmost(line);
  }

  /*
   * The parse below is stated for any line classifier `classify`; the parser
   * of the chat export is the instance `classify := Classify`.
   */

  /** The date cursor after reading `lines`: the key of the last header among them. */
  function LastHeader(lines: seq<string>, classify: string -> LineKind): Option<string> {
    if lines == [] then None
    else
      match classify(lines[|lines| - 1])
      case Header(k) => Some(k)
      case _ => LastHeader(lines[..|lines| - 1], classify)
  }

  /** One appended message: its date (None before any header), its text and its line number. */
  datatype Entry = Entry(date: Option<string>, text: string, line: nat)

  /** The messages the loop appends, in input order, each with the cursor at its line. */
  function Emitted(lines: seq<string>, classify: string -> LineKind): seq<Entry> {
    if lines == [] then []
    else
      var n := |lines| - 1;
      var prev := Emitted(lines[..n], classify);
      match classify(lines[n])
      case Message(t) => if t != "" then prev + [Entry(LastHeader(lines[..n], classify), t, n)] else prev
      case _ => prev
  }

  /** The texts of the entries dated `d`, in order. */
  function MessagesOn(es: seq<Entry>, d: string): seq<string> {
    if es == [] then []
    else MessagesOn(es[..|es| - 1], d) + (if es[|es| - 1].date == Some(d) then [es[|es| - 1].text] else [])
  }

  function Dates(es: seq<Entry>): set<string> {
    set e | e in es && e.date.Some? :: e.date.value
  }

  /** `data_by_date`: every date that received a message, with its messages in order. */
  function Grouped(es: seq<Entry>): map<string, seq<string>> {
    map d | d in Dates(es) :: MessagesOn(es, d)
  }

  predicate HasOrphan(es: seq<Entry>) {
    exists k :: 0 <= k < |es| && es[k].date.None?
  }

  datatype ParseError = UnboundDate

  /**
   * What the parse returns: a non-empty message before any header reads the
   * unbound `current_date` and raises; otherwise the grouping.
   */
  function DialoguesWith(lines: seq<string>, classify: string -> LineKind): Result<map<string, seq<string>>, ParseError> {
    var es := Emitted(lines, classify);
    if HasOrphan(es) then Failure(UnboundDate) else Success(Grouped(es))
  }

  /**
   * `extract_kakao_dialogues` on the lines of the export: it raises exactly
   * when a message line with non-empty text comes before every date header,
   * and the only error is the unbound date.
   */
  function Dialogues(lines: seq<string>): (r: Result<map<string, seq<string>>, ParseError>)
    ensures r.Failure? <==>
              exists i :: 0 <= i < |lines| && Classify(lines[i]).Message? && Classify(lines[i]).text != ""
                          && forall j :: 0 <= j < i ==> !Classify(lines[j]).Header?
    ensures r.Failure? ==> r.error == UnboundDate
  {
    ParseFailsIffMessageBeforeHeader(lines, Classify);
    DialoguesWith(lines, Classify)
  }

  lemma MessagesOnAbsent(es: seq<Entry>, d: string)
    requires d !in Dates(es)
    ensures MessagesOn(es, d) == []
  {
    if es != [] {
      assert Dates(es[..|es| - 1]) <= Dates(es);
      MessagesOnAbsent(es[..|es| - 1], d);
    }
  }

  /** Appending one dated entry appends its text to its date's list and touches no other date. */
  lemma GroupedAppend(es: seq<Entry>, e: Entry)
    requires e.date.Some?
    ensures Grouped(es + [e]) ==
      Grouped(es)[e.date.value := (if e.date.value in Grouped(es) then Grouped(es)[e.date.value] else []) + [e.text]]
  {
    var d := e.date.value;
    var es' := es + [e];
    assert es'[..|es'| - 1] == es;
    assert Dates(es') == Dates(es) + {d};
    forall d' | d' in Dates(es') ensures MessagesOn(es', d') ==
      (if d' == d then (if d in Grouped(es) then Grouped(es)[d] else []) + [e.text] else MessagesOn(es, d'))
    {
      if d' == d && d !in Dates(es) {
        MessagesOnAbsent(es, d);
      }
    }
  }

  /** The entries of a prefix of the input are a prefix of the entries of the input. */
  lemma {:induction false} EmittedPrefix(lines: seq<string>, classify: string -> LineKind, i: nat)
    requires i <= |lines|
    ensures |Emitted(lines[..i], classify)| <= |Emitted(lines, classify)|
    ensures Emitted(lines[..i], classify) == Emitted(lines, classify)[..|Emitted(lines[..i], classify)|]
    decreases |lines|
  {
    if i < |lines| {
      var n := |lines| - 1;
      assert lines[..n][..i] == lines[..i];
      EmittedPrefix(lines[..n], classify, i);
    } else {
      assert lines[..i] == lines;
    }
  }

  /** Reading one more line: the cursor and the entries after `lines[..i + 1]`. */
  lemma StepLine(lines: seq<string>, classify: string -> LineKind, i: nat)
    requires i < |lines|
    ensures LastHeader(lines[..i + 1], classify) ==
      (if classify(lines[i]).Header? then Some(classify(lines[i]).key) else LastHeader(lines[..i], classify))
    ensures Emitted(lines[..i + 1], classify) ==
      (if classify(lines[i]).Message? && classify(lines[i]).text != ""
       then Emitted(lines[..i], classify) + [Entry(LastHeader(lines[..i], classify), classify(lines[i]).text, i)]
       else Emitted(lines[..i], classify))
  {
    assert lines[..i + 1][..i] == lines[..i];
  }

  /** An orphan among the first lines' entries makes the whole parse fail. */
  lemma OrphanInPrefix(lines: seq<string>, classify: string -> LineKind, i: nat)
    requires i <= |lines|
    requires HasOrphan(Emitted(lines[..i], classify))
    ensures HasOrphan(Emitted(lines, classify))
  {
    EmittedPrefix(lines, classify, i);
    var k :| 0 <= k < |Emitted(lines[..i], classify)| && Emitted(lines[..i], classify)[k].date.None?;
    assert Emitted(lines, classify)[k] == Emitted(lines[..i], classify)[k];
  }

  /**
   * The cursor is the key of the most recent header line, and None exactly
   * when no header has been read.
   */
  lemma {:induction false} LastHeaderIsMostRecent(lines: seq<string>, classify: string -> LineKind)
    ensures LastHeader(lines, classify).Some? ==>
              exists i :: 0 <= i < |lines| && classify(lines[i]) == Header(LastHeader(lines, classify).value)
                          && forall j :: i < j < |lines| ==> !classify(lines[j]).Header?
    ensures LastHeader(lines, classify).None? ==> forall j :: 0 <= j < |lines| ==> !classify(lines[j]).Header?
  {
    if lines != [] {
      var n := |lines| - 1;
      LastHeaderIsMostRecent(lines[..n], classify);
      if !classify(lines[n]).Header? && LastHeader(lines, classify).Some? {
        var i :| 0 <= i < n && classify(lines[..n][i]) == Header(LastHeader(lines[..n], classify).value)
                 && forall j :: i < j < n ==> !classify(lines[..n][j]).Header?;
        assert classify(lines[i]) == Header(LastHeader(lines, classify).value);
      }
    }
  }

  /**
   * Every entry is a message line with a non-empty text, dated by the cursor
   * at that line, and the entries follow the input order.
   */
  lemma {:induction false} EmittedSound(lines: seq<string>, classify: string -> LineKind)
    ensures forall k :: 0 <= k < |Emitted(lines, classify)| ==>
              var e := Emitted(lines, classify)[k];
              && e.line < |lines| && e.text != ""
              && classify(lines[e.line]) == Message(e.text)
              && e.date == LastHeader(lines[..e.line], classify)
    ensures forall a, b :: 0 <= a < b < |Emitted(lines, classify)| ==>
              Emitted(lines, classify)[a].line < Emitted(lines, classify)[b].line
  {
    if lines != [] {
      var n := |lines| - 1;
      EmittedSound(lines[..n], classify);
      var prev := Emitted(lines[..n], classify);
      forall k | 0 <= k < |prev| ensures prev[k].line < n && lines[..n][..prev[k].line] == lines[..prev[k].line] {
      }
    }
  }

  /** Every message line with a non-empty text has its entry. */
  lemma {:induction false} EmittedComplete(lines: seq<string>, classify: string -> LineKind, i: nat)
    requires i < |lines| && classify(lines[i]).Message? && classify(lines[i]).text != ""
    ensures exists k :: 0 <= k < |Emitted(lines, classify)| && Emitted(lines, classify)[k].line == i
  {
    var n := |lines| - 1;
    if i < n {
      EmittedComplete(lines[..n], classify, i);
      var k :| 0 <= k < |Emitted(lines[..n], classify)| && Emitted(lines[..n], classify)[k].line == i;
      assert Emitted(lines, classify)[k] == Emitted(lines[..n], classify)[k];
    } else {
      assert Emitted(lines, classify)[|Emitted(lines[..n], classify)|].line == i;
    }
  }

  lemma {:induction false} NoHeaderNoCursor(lines: seq<string>, classify: string -> LineKind)
    requires forall j :: 0 <= j < |lines| ==> !classify(lines[j]).Header?
    ensures LastHeader(lines, classify).None?
  {
    if lines != [] {
      NoHeaderNoCursor(lines[..|lines| - 1], classify);
    }
  }

  /** The parse fails exactly when a non-empty message comes before the first header. */
  lemma ParseFailsIffMessageBeforeHeader(lines: seq<string>, classify: string -> LineKind)
    ensures DialoguesWith(lines, classify).Failure? <==>
              exists i :: 0 <= i < |lines| && classify(lines[i]).Message? && classify(lines[i]).text != ""
                          && forall j :: 0 <= j < i ==> !classify(lines[j]).Header?
  {
    if HasOrphan(Emitted(lines, classify)) {
      OrphanIsEarlyMessage(lines, classify);
    }
    if exists i :: 0 <= i < |lines| && classify(lines[i]).Message? && classify(lines[i]).text != ""
                   && forall j :: 0 <= j < i ==> !classify(lines[j]).Header? {
      var i :| 0 <= i < |lines| && classify(lines[i]).Message? && classify(lines[i]).text != ""
               && forall j :: 0 <= j < i ==> !classify(lines[j]).Header?;
      EarlyMessageIsOrphan(lines, classify, i);
    }
  }

  /** A message appended without a date comes from a non-empty message line before every header. */
  lemma OrphanIsEarlyMessage(lines: seq<string>, classify: string -> LineKind)
    requires HasOrphan(Emitted(lines, classify))
    ensures exists i :: 0 <= i < |lines| && classify(lines[i]).Message? && classify(lines[i]).text != ""
                        && forall j :: 0 <= j < i ==> !classify(lines[j]).Header?
  {
    var es := Emitted(lines, classify);
    var k :| 0 <= k < |es| && es[k].date.None?;
    var i := OrphanLine(lines, classify, k);
    NoHeaderBefore(lines, classify, i);
  }

  /** The line of the k-th appended message when it has no date: a non-empty message line with no header before it. */
  lemma OrphanLine(lines: seq<string>, classify: string -> LineKind, k: nat) returns (i: nat)
    requires k < |Emitted(lines, classify)| && Emitted(lines, classify)[k].date.None?
    ensures i < |lines| && classify(lines[i]).Message? && classify(lines[i]).text != ""
    ensures LastHeader(lines[..i], classify).None?
  {
    EmittedSound(lines, classify);
    i := Emitted(lines, classify)[k].line;
  }

  /** No cursor after the first i lines means none of them is a header. */
  lemma NoHeaderBefore(lines: seq<string>, classify: string -> LineKind, i: nat)
    requires i <= |lines| && LastHeader(lines[..i], classify).None?
    ensures forall j :: 0 <= j < i ==> !classify(lines[j]).Header?
  {
    LastHeaderIsMostRecent(lines[..i], classify);
    forall j | 0 <= j < i ensures !classify(lines[j]).Header? {
      assert lines[..i][j] == lines[j];
    }
  }

  /** A non-empty message line before every header is appended without a date. */
  lemma EarlyMessageIsOrphan(lines: seq<string>, classify: string -> LineKind, i: nat)
    requires i < |lines| && classify(lines[i]).Message? && classify(lines[i]).text != ""
    requires forall j :: 0 <= j < i ==> !classify(lines[j]).Header?
    ensures HasOrphan(Emitted(lines, classify))
  {
    var es := Emitted(lines, classify);
    EmittedSound(lines, classify);
    EmittedComplete(lines, classify, i);
    var k :| 0 <= k < |es| && es[k].line == i;
    NoHeaderNoCursor(lines[..i], classify);
    assert es[k].date.None?;
  }

  /** The loop of `extract_kakao_dialogues`: a date cursor and a map of message lists. */
  method ParseLines(lines: seq<string>, classify: string -> LineKind)
    returns (r: Result<map<string, seq<string>>, ParseError>)
    ensures r == DialoguesWith(lines, classify)
  {
    var groups: map<string, seq<string>> := map[];
    var cursor: Option<string> := None;
    var i := 0;
    while i < |lines|
      invariant 0 <= i <= |lines|
      invariant cursor == LastHeader(lines[..i], classify)
      invariant !HasOrphan(Emitted(lines[..i], classify))
      invariant groups == Grouped(Emitted(lines[..i], classify))
    {
      StepLine(lines, classify, i);
      var kind := classify(lines[i]);
      if kind.Header? {
        cursor := Some(kind.key);
      } else if kind.Message? && kind.text != "" {
        var t := kind.text;
        var e := Entry(cursor, t, i);
        if cursor.None? {
          assert Emitted(lines[..i + 1], classify)[|Emitted(lines[..i], classify)|] == e;
          OrphanInPrefix(lines, classify, i + 1);
          return Failure(UnboundDate);
        }
        GroupedAppend(Emitted(lines[..i], classify), e);
        var d := cursor.value;
        groups := groups[d := (if d in groups then groups[d] else []) + [t]];
      }
      i := i + 1;
    }
    assert lines[..i] == lines;
    return Success(groups);
  }

  /** `extract_kakao_dialogues(path)` on the lines `f.readlines()` returns. */
  method ExtractDialogues(lines: seq<string>) returns (r: Result<map<string, seq<string>>, ParseError>)
    ensures r == Dialogues(lines)
  {
    r := ParseLines(lines, Classify);
  }
}
