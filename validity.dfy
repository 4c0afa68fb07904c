/**
 * The message validity filter (`is_valid_conversation`): a message is kept when
 * it holds at least one Hangul syllable (`[가-힣]`) and neither an `http://` or
 * `https://` URL nor a "total amount" marker `총\s*금액`.
 */
module Validity {
  import opened Text

  predicate IsHangulSyllable(c: char) {
    '가' <= c <= '힣'
  }

  predicate HasHangul(s: string) {
    exists i :: 0 <= i < |s| && IsHangulSyllable(s[i])
  }

  /** `https?://` occurs. */
  predicate HasUrl(s: string) {
    Contains(s, "http://") || Contains(s, "https://")
  }

  /** `총\s*금액` matches at `i`: 총, any whitespace, then 금액. */
  predicate TotalAmountAt(s: string, i: nat) {
    i < |s| && s[i] == '총' && OccursAt(s, "금액", i + 1 + LeadingSpace(s[i + 1..]))
  }

  predicate HasTotalAmount(s: string) {
    exists i: nat :: i < |s| && TotalAmountAt(s, i)
  }

  /**
   * The one-expression form in `final_inference.py` and `final_test.py`: a
   * kept message has a Hangul syllable somewhere and, at no position, an
   * `http://`, an `https://` or a total-amount marker; a message without any
   * Hangul syllable is never kept.
   */
  predicate IsValidConversation(msg: string)
    ensures IsValidConversation(msg) ==> exists i :: 0 <= i < |msg| && IsHangulSyllable(msg[i])
    ensures IsValidConversation(msg) ==>
              forall i: nat :: !OccursAt(msg, "http://", i) && !OccursAt(msg, "https://", i) && !TotalAmountAt(msg, i)
    ensures (forall i :: 0 <= i < |msg| ==> !IsHangulSyllable(msg[i])) ==> !IsValidConversation(msg)
  {
    HasHangul(msg) && !(HasUrl(msg) || HasTotalAmount(msg))
  }

  /** The early-return form in `keyword_extract.py`: no Hangul first, then URL or total. */
  function IsValidConversationStaged(msg: string): (ok: bool)
    ensures ok == IsValidConversation(msg)
  {
    if !HasHangul(msg) then false
    else if HasUrl(msg) || HasTotalAmount(msg) then false
    else true
  }

  /** `[m for m in msgs if is_valid_conversation(m)]`. */
  function ValidMessages(msgs: seq<string>): (r: seq<string>)
    ensures |r| <= |msgs|
    ensures forall k :: 0 <= k < |r| ==> IsValidConversation(r[k]) && r[k] in msgs
    ensures forall m :: m in msgs && IsValidConversation(m) ==> m in r
  {
    if msgs == [] then []
    else (if IsValidConversation(msgs[0]) then [msgs[0]] else []) + ValidMessages(msgs[1..])
  }

  /**
   * The comprehension keeps order and repeats: filtering a concatenation is
   * concatenating the filtered parts.
   */
  lemma {:induction false} ValidMessagesAppend(a: seq<string>, b: seq<string>)
    ensures ValidMessages(a + b) == ValidMessages(a) + ValidMessages(b)
  {
    if a == [] {
      assert a + b == b;
    } else {
      var head := if IsValidConversation(a[0]) then [a[0]] else [];
      assert (a + b)[0] == a[0];
      assert (a + b)[1..] == a[1..] + b;
      ValidMessagesAppend(a[1..], b);
      calc {
        ValidMessages(a + b);
        head + ValidMessages(a[1..] + b);
        head + (ValidMessages(a[1..]) + ValidMessages(b));
        (head + ValidMessages(a[1..])) + ValidMessages(b);
        ValidMessages(a) + ValidMessages(b);
      }
    }
  }

  /** A single message is kept alone or dropped. */
  lemma ValidMessagesSingle(m: string)
    ensures ValidMessages([m]) == if IsValidConversation(m) then [m] else []
  {
    assert [m][1..] == [];
  }

  /** A URL anywhere in a message rejects it, whatever surrounds it. */
  lemma UrlRejects(before: string, after: string, secure: bool)
    ensures !IsValidConversation(before + (if secure then "https://" else "http://") + after)
  {
    var url := if secure then "https://" else "http://";
    var s := before + url + after;
    assert OccursAt(s, url, |before|) by {
      assert s[|before|..|before| + |url|] == url;
    }
  }

  /** The total-amount marker rejects a message with any run of whitespace between its two words. */
  lemma TotalAmountRejects(before: string, gap: string, after: string)
    requires AllSpace(gap)
    ensures !IsValidConversation(before + "총" + gap + "금액" + after)
  {
    var s := before + "총" + gap + "금액" + after;
    var i := |before|;
    assert s[i + 1..] == gap + "금액" + after;
    assert LeadingSpace(gap + "금액" + after) == |gap| by {
      assert gap + "금액" + after == gap + ("금액" + after);
      LeadingSpaceOfPrefix(gap, "금액" + after);
    }
    assert s[i + 1 + |gap|..i + 1 + |gap| + 2] == "금액";
    assert TotalAmountAt(s, i);
  }

  lemma {:induction false} LeadingSpaceOfPrefix(gap: string, rest: string)
    requires AllSpace(gap) && rest != [] && !IsSpace(rest[0])
    ensures LeadingSpace(gap + rest) == |gap|
  {
    if gap != [] {
      assert (gap + rest)[1..] == gap[1..] + rest;
      LeadingSpaceOfPrefix(gap[1..], rest);
    }
  }

  /** A message made only of Hangul jamo (ㅋㅋ, ㅎㅎ) has no syllable and is rejected. */
  lemma JamoOnlyRejected()
    ensures !IsValidConversation("ㅋㅋㅋ") && !IsValidConversation("ㅎㅎ")
  {
  }

  /** A plain Hangul sentence is kept. */
  lemma HangulSentenceKept()
    ensures IsValidConversation("오늘 뭐 해")
  {
    var s := "오늘 뭐 해";
    assert IsHangulSyllable(s[0]);
    assert !HasUrl(s) by {
      assert forall i :: 0 <= i <= |s| - 7 ==> !OccursAt(s, "http://", i);
      assert forall i :: 0 <= i <= |s| - 8 ==> !OccursAt(s, "https://", i);
    }
    assert forall i: nat :: i < |s| ==> s[i] != '총';
  }
}
