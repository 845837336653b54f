/** The pure pieces of the Telegram front end: cleaning an LLM reply for the user, choosing
    what to send when the call failed, and the FAQ list and answer selection. Telegram
    transport is not modelled; the store records what the handlers save. */
module Bot {
  import opened Wrappers
  import opened Text
  import opened Storage
  import opened LlmClient

  const OpenTag: string := "<think>"
  const CloseTag: string := "</think>"

  /** The characters the regular-expression engine, ignoring case, takes for the letters of
      the tags: each letter in either case, and besides LATIN CAPITAL LETTER I WITH DOT ABOVE
      and LATIN SMALL LETTER DOTLESS I for `i`, and KELVIN SIGN for `k`. */
  predicate IsT(c: char) { c == 't' || c == 'T' }
  predicate IsH(c: char) { c == 'h' || c == 'H' }
  predicate IsI(c: char) { c == 'i' || c == 'I' || c == '\U{0130}' || c == '\U{0131}' }
  predicate IsN(c: char) { c == 'n' || c == 'N' }
  predicate IsK(c: char) { c == 'k' || c == 'K' || c == '\U{212a}' }

  /** `<think>`, in any letter case, starts at position `i` of `s`. */
  predicate OpenAt(s: string, i: int) {
    0 <= i && i + |OpenTag| <= |s|
    && s[i] == '<' && IsT(s[i + 1]) && IsH(s[i + 2]) && IsI(s[i + 3]) && IsN(s[i + 4]) && IsK(s[i + 5])
    && s[i + 6] == '>'
  }

  /** `</think>`, in any letter case, starts at position `i` of `s`. */
  predicate CloseAt(s: string, i: int) {
    0 <= i && i + |CloseTag| <= |s|
    && s[i] == '<' && s[i + 1] == '/' && IsT(s[i + 2]) && IsH(s[i + 3]) && IsI(s[i + 4]) && IsN(s[i + 5])
    && IsK(s[i + 6]) && s[i + 7] == '>'
  }

  /** The first position at or after `from` where a closing tag starts. */
  function FirstClose(s: string, from: nat): (r: Option<nat>)
    ensures r.Some? ==> from <= r.value && r.value + |CloseTag| <= |s|
    decreases |s| - from
  {
    if from + |CloseTag| > |s| then None
    else if CloseAt(s, from) then Some(from)
    else FirstClose(s, from + 1)
  }

  /** The position found is a closing tag and no earlier one after `from` is; `None` means
      there is none at or after `from`. */
  lemma {:induction false} FirstCloseSpec(s: string, from: nat)
    ensures var r := FirstClose(s, from);
            && (r.Some? ==> CloseAt(s, r.value) && forall j :: from <= j < r.value ==> !CloseAt(s, j))
            && (r.None? ==> forall j :: from <= j ==> !CloseAt(s, j))
    decreases |s| - from
  {
    if from + |CloseTag| <= |s| && !CloseAt(s, from) {
      FirstCloseSpec(s, from + 1);
    }
  }

  /** `THINK_RE.sub("", ...)` scanning `s` from position `p`: a `<think>` at the scan position
      that has a `</think>` somewhere after it is removed together with everything up to the
      nearest such `</think>`, and the scan resumes after it; any other character is kept. */
  function ScrubFrom(s: string, p: nat): (r: string)
    ensures p <= |s| ==> |r| <= |s| - p
    decreases |s| - p
  {
    if p >= |s| then []
    else
      match BlockEnd(s, p)
      case Some(n) => ScrubFrom(s, n)
      case None => [s[p]] + ScrubFrom(s, p + 1)
  }

  /** The position just past the block that starts at `p`: an opening tag there and the
      nearest closing tag after it. `None` when no block starts at `p`. */
  function BlockEnd(s: string, p: nat): (r: Option<nat>)
    ensures r.Some? ==> p + |OpenTag| + |CloseTag| <= r.value <= |s|
  {
    if !OpenAt(s, p) then None
    else
      match FirstClose(s, p + |OpenTag|)
      case None => None
      case Some(e) => Some(e + |CloseTag|)
  }

  /** `THINK_RE.sub("", s)`. */
  function RemoveThink(s: string): (r: string)
    ensures |r| <= |s|
  {
    ScrubFrom(s, 0)
  }

  /** Some `<think>` at or after `p` is followed, further on, by a `</think>`. */
  ghost predicate HasBlockFrom(s: string, p: int) {
    exists i, j :: p <= i && OpenAt(s, i) && i + |OpenTag| <= j && CloseAt(s, j)
  }

  /** Some `<think>` in `s` is followed, further on, by a `</think>`. */
  ghost predicate HasBlock(s: string) {
    HasBlockFrom(s, 0)
  }

  /** An opening tag at `p` with a closing tag after it is a block. */
  lemma BlockAt(s: string, p: nat)
    ensures BlockEnd(s, p).Some? ==> HasBlockFrom(s, p)
  {
    if BlockEnd(s, p).Some? {
      FirstCloseSpec(s, p + |OpenTag|);
      var j := FirstClose(s, p + |OpenTag|).value;
      assert p <= p && OpenAt(s, p) && p + |OpenTag| <= j && CloseAt(s, j);
    }
  }

  /** A block after `p + 1` is a block after `p`. */
  lemma BlockFromEarlier(s: string, p: nat)
    ensures HasBlockFrom(s, p + 1) ==> HasBlockFrom(s, p)
  {
    if HasBlockFrom(s, p + 1) {
      var i, j :| p + 1 <= i && OpenAt(s, i) && i + |OpenTag| <= j && CloseAt(s, j);
      assert p <= i;
    }
  }

  /** The scan from `p` leaves the text unchanged exactly when no complete block starts at or
      after `p`. */
  lemma {:induction false} ScrubUnchanged(s: string, p: nat)
    requires p <= |s|
    ensures ScrubFrom(s, p) == s[p..] <==> !HasBlockFrom(s, p)
    decreases |s| - p
  {
    if HasBlockFrom(s, p) {
      ScrubShrinks(s, p);
    } else if p < |s| {
      BlockAt(s, p);
      BlockFromEarlier(s, p);
      ScrubUnchanged(s, p + 1);
      assert s[p..] == [s[p]] + s[p + 1..];
    }
  }

  /** A scan that meets a complete block always shortens the text. */
  lemma ScrubShrinks(s: string, p: nat)
    requires p <= |s| && HasBlockFrom(s, p)
    ensures |ScrubFrom(s, p)| < |s| - p
  {
    var i, j :| p <= i && OpenAt(s, i) && i + |OpenTag| <= j && CloseAt(s, j);
    ScrubShrinksAt(s, p, i, j);
  }

  /** `ScrubShrinks` for a given opening tag at `i` and closing tag at `j`. */
  lemma {:induction false} ScrubShrinksAt(s: string, p: nat, i: nat, j: nat)
    requires p <= i && OpenAt(s, i) && i + |OpenTag| <= j && CloseAt(s, j)
    ensures |ScrubFrom(s, p)| < |s| - p
    decreases i - p
  {
    BlockEndAt(s, i, j);
    if BlockEnd(s, p).None? {
      ScrubShrinksAt(s, p + 1, i, j);
    }
    ScrubStepLength(s, p);
  }

  /** An opening tag with a closing tag after it starts a block. */
  lemma BlockEndAt(s: string, i: nat, j: nat)
    requires OpenAt(s, i) && i + |OpenTag| <= j && CloseAt(s, j)
    ensures BlockEnd(s, i).Some?
  {
    FirstCloseSpec(s, i + |OpenTag|);
  }

  /** One scan step: a block shortens the text by at least both tags, a kept character
      shortens it by nothing. */
  lemma ScrubStepLength(s: string, p: nat)
    requires p < |s|
    ensures BlockEnd(s, p).Some? ==> |ScrubFrom(s, p)| <= |s| - p - |OpenTag| - |CloseTag|
    ensures BlockEnd(s, p).None? ==> |ScrubFrom(s, p)| == 1 + |ScrubFrom(s, p + 1)|
  {
  }

  /** The text is unchanged exactly when it holds no complete `<think>…</think>` block; in
      particular a `<think>` without a later `</think>`, or text without any `<think>`, is
      kept as it is. */
  lemma RemoveThinkUnchanged(s: string)
    ensures RemoveThink(s) == s <==> !HasBlock(s)
  {
    ScrubUnchanged(s, 0);
    assert s[0..] == s;
  }

  /** A character at the scan position where no opening tag starts is kept. */
  lemma ScrubKeeps(s: string, p: nat)
    requires p < |s| && !OpenAt(s, p)
    ensures ScrubFrom(s, p) == [s[p]] + ScrubFrom(s, p + 1)
  {
  }

  /** A run of characters in which no opening tag starts is kept as it is. */
  lemma {:induction false} ScrubKeepsRun(s: string, p: nat, n: nat)
    requires p + n <= |s|
    requires forall k :: p <= k < p + n ==> !OpenAt(s, k)
    ensures ScrubFrom(s, p) == s[p..p + n] + ScrubFrom(s, p + n)
    decreases n
  {
    if n > 0 {
      calc {
        ScrubFrom(s, p);
      == { ScrubKeeps(s, p); }
        [s[p]] + ScrubFrom(s, p + 1);
      == { ScrubKeepsRun(s, p + 1, n - 1); }
        [s[p]] + (s[p + 1..p + n] + ScrubFrom(s, p + n));
      == { assert [s[p]] + s[p + 1..p + n] == s[p..p + n]; }
        s[p..p + n] + ScrubFrom(s, p + n);
      }
    }
  }

  /** A block at the scan position is skipped up to the end of the nearest closing tag. */
  lemma ScrubSkipsBlock(s: string, p: nat, e: nat)
    requires OpenAt(s, p) && p + |OpenTag| <= e && CloseAt(s, e)
    requires forall j :: p + |OpenTag| <= j < e ==> !CloseAt(s, j)
    ensures ScrubFrom(s, p) == ScrubFrom(s, e + |CloseTag|)
  {
    FirstCloseSpec(s, p + |OpenTag|);
    assert FirstClose(s, p + |OpenTag|) == Some(e);
    assert BlockEnd(s, p) == Some(e + |CloseTag|);
  }

  /** A tag in `s[q..]` is a tag in `s`, `q` positions further. */
  lemma TagShift(s: string, q: nat, i: nat)
    requires q <= |s|
    ensures OpenAt(s[q..], i) <==> OpenAt(s, q + i)
    ensures CloseAt(s[q..], i) <==> CloseAt(s, q + i)
  {
  }

  /** Searching `s[q..]` finds the closing tags of `s`, shifted by `q`. */
  lemma {:induction false} FirstCloseShift(s: string, q: nat, from: nat)
    requires q <= |s|
    ensures FirstClose(s, q + from) == OffsetBy(FirstClose(s[q..], from), q)
    decreases |s| - q - from
  {
    TagShift(s, q, from);
    if q + from + |CloseTag| <= |s| && !CloseAt(s, q + from) {
      FirstCloseShift(s, q, from + 1);
    }
  }

  /** A block of `s[q..]` is a block of `s`, shifted by `q`. */
  lemma BlockEndShift(s: string, q: nat, p: nat)
    requires q <= |s|
    ensures BlockEnd(s, q + p) == OffsetBy(BlockEnd(s[q..], p), q)
  {
    TagShift(s, q, p);
    FirstCloseShift(s, q, p + |OpenTag|);
  }

  /** At a block the scan jumps past the block's closing tag. */
  lemma ScrubAtBlock(s: string, p: nat, n: nat)
    requires p < |s| && BlockEnd(s, p) == Some(n)
    ensures ScrubFrom(s, p) == ScrubFrom(s, n)
  {
  }

  /** Where no block starts the scan keeps the character and moves on by one. */
  lemma ScrubAtChar(s: string, p: nat)
    requires p < |s| && BlockEnd(s, p).None?
    ensures ScrubFrom(s, p) == [s[p]] + ScrubFrom(s, p + 1)
  {
  }

  /** One step of the scan over a block, given that the scans after it agree. */
  lemma ScrubStepBlock(s: string, q: nat, p: nat, n: nat)
    requires q + p < |s|
    requires BlockEnd(s[q..], p) == Some(n) && BlockEnd(s, q + p) == Some(q + n)
    requires ScrubFrom(s, q + n) == ScrubFrom(s[q..], n)
    ensures ScrubFrom(s, q + p) == ScrubFrom(s[q..], p)
  {
    ScrubAtBlock(s, q + p, q + n);
    ScrubAtBlock(s[q..], p, n);
  }

  /** One step of the scan over a kept character, given that the scans after it agree. */
  lemma ScrubStepChar(s: string, q: nat, p: nat)
    requires q + p < |s|
    requires BlockEnd(s[q..], p).None? && BlockEnd(s, q + p).None?
    requires ScrubFrom(s, q + p + 1) == ScrubFrom(s[q..], p + 1)
    ensures ScrubFrom(s, q + p) == ScrubFrom(s[q..], p)
  {
    ScrubAtChar(s, q + p);
    ScrubAtChar(s[q..], p);
    assert s[q..][p] == s[q + p];
  }

  /** The scan from `q + p` in `s` is the scan from `p` in the suffix `s[q..]`. */
  lemma {:induction false} ScrubSuffix(s: string, q: nat, p: nat)
    requires q <= |s|
    ensures ScrubFrom(s, q + p) == ScrubFrom(s[q..], p)
    decreases |s| - q - p
  {
    if q + p < |s| {
      BlockEndShift(s, q, p);
      match BlockEnd(s[q..], p)
      case Some(n) =>
        ScrubSuffix(s, q, n);
        ScrubStepBlock(s, q, p, n);
      case None =>
        ScrubSuffix(s, q, p + 1);
        ScrubStepChar(s, q, p);
    }
  }

  /** The scan keeps the text before a block that starts at the first opening tag, then
      resumes after the block's closing tag. */
  lemma ScrubFirstBlock(s: string, i: nat, e: nat)
    requires OpenAt(s, i) && i + |OpenTag| <= e && CloseAt(s, e)
    requires forall k :: 0 <= k < i ==> !OpenAt(s, k)
    requires forall j :: i + |OpenTag| <= j < e ==> !CloseAt(s, j)
    ensures ScrubFrom(s, 0) == s[..i] + ScrubFrom(s, e + |CloseTag|)
  {
    ScrubKeepsRun(s, 0, i);
    ScrubSkipsBlock(s, i, e);
    assert s[0..i] == s[..i];
  }

  /** Removal works left to right: the text before the first opening tag (stray `<` included)
      is kept, a block from that tag (in any letter case) to the nearest closing tag after it
      disappears, and the text after that closing tag is processed on its own. */
  lemma RemoveThinkBlock(s: string, i: nat, e: nat)
    requires OpenAt(s, i) && i + |OpenTag| <= e && CloseAt(s, e)
    requires forall k :: 0 <= k < i ==> !OpenAt(s, k)
    requires forall j :: i + |OpenTag| <= j < e ==> !CloseAt(s, j)
    ensures RemoveThink(s) == s[..i] + RemoveThink(s[e + |CloseTag|..])
  {
    ScrubFirstBlock(s, i, e);
    ScrubSuffix(s, e + |CloseTag|, 0);
  }

  /** `format_response_for_user`: a string reply loses its think blocks and surrounding
      whitespace; any other value is only rendered with `render` (Python's `str`). */
  function FormatResponse(raw: Json, render: Json -> string): (r: string)
    ensures raw.JStr? ==> |r| <= |raw.s| && (r == [] || (!IsSpace(r[0]) && !IsSpace(r[|r| - 1])))
    ensures !raw.JStr? ==> r == render(raw)
  {
    if raw.JStr? then Strip(RemoveThink(raw.s)) else render(raw)
  }

  /** Text without a `<` holds no opening tag. */
  lemma NoOpenTagWithoutLt(s: string)
    requires '<' !in s
    ensures !HasBlock(s)
  {
    forall i | 0 <= i && i + |OpenTag| <= |s|
      ensures !OpenAt(s, i)
    {
      assert s[i] in s;
    }
    assert !HasBlockFrom(s, 0);
  }

  /** Text without a `<` and without whitespace at either end is sent as it is. */
  lemma FormatPlain(s: string, render: Json -> string)
    requires '<' !in s
    requires s == [] || (!IsSpace(s[0]) && !IsSpace(s[|s| - 1]))
    ensures FormatResponse(JStr(s), render) == s
  {
    NoOpenTagWithoutLt(s);
    RemoveThinkUnchanged(s);
    assert StripStart(s) == s;
    assert StripEnd(s) == s;
  }

  const ConnectionErrorPrefix: string := "Ошибка соединения с LLM API"
  const UnavailableReply: string := "Извините, сервис ИИ временно недоступен. Попробуйте позже."
  const TimeoutReply: string := "Извините, сервис ИИ не ответил вовремя. Попробуйте позже."
  const FailureReply: string := "Извините, произошла ошибка при обращении к ИИ."

  /** How the LLM call in the message handler ended. */
  datatype LlmOutcome = Replied(raw: Json) | TimedOut | Failed

  /** What the handler sends to the chat, and what it saves as the `assistant_reply`. */
  datatype Delivery = Delivery(sent: string, saved: string)

  /** A formatted reply that reports a connection error is replaced by the generic
      "temporarily unavailable" text; anything else is sent as it is. */
  function Outgoing(formatted: string): string {
    if StartsWith(formatted, ConnectionErrorPrefix) then UnavailableReply else formatted
  }

  /** The reply of `user_message_handler`: a timeout stands in the fixed timeout text (and is
      formatted like a reply), any other failure the fixed error text (unformatted). */
  function Deliver(outcome: LlmOutcome, render: Json -> string): Delivery {
    var formatted :=
      match outcome
      case Replied(raw) => FormatResponse(raw, render)
      case TimedOut => FormatResponse(JStr(TimeoutReply), render)
      case Failed => FailureReply;
    Delivery(Outgoing(formatted), formatted)
  }

  /** The history always gets the formatted text; the chat gets the same text unless it
      starts with the connection-error prefix, in which case it gets the generic text. */
  lemma DeliverSpec(outcome: LlmOutcome, render: Json -> string)
    ensures var d := Deliver(outcome, render);
            && (StartsWith(d.saved, ConnectionErrorPrefix) ==> d.sent == UnavailableReply)
            && (!StartsWith(d.saved, ConnectionErrorPrefix) ==> d.sent == d.saved)
            && (outcome.Replied? ==> d.saved == FormatResponse(outcome.raw, render))
  {
  }

  /** A text that differs from the prefix at some position inside it does not start with it. */
  lemma NotStartsWith(s: string, prefix: string, k: nat)
    requires k < |prefix| <= |s| && s[k] != prefix[k]
    ensures !StartsWith(s, prefix)
  {
    assert s[..|prefix|][k] == s[k];
  }

  /** A failed call reaches the chat and the history as the fixed error text. */
  lemma DeliverFailure(render: Json -> string)
    ensures Deliver(Failed, render) == Delivery(FailureReply, FailureReply)
  {
    NotStartsWith(FailureReply, ConnectionErrorPrefix, |ConnectionErrorPrefix| - 1);
  }

  /** A model reply whose cleaned text starts with the connection-error prefix is hidden from
      the chat but kept, cleaned, in history. */
  lemma ConnectionErrorHidden(message: string, render: Json -> string)
    requires StartsWith(Strip(RemoveThink(message)), ConnectionErrorPrefix)
    ensures Deliver(Replied(JStr(message)), render) == Delivery(UnavailableReply, Strip(RemoveThink(message)))
  {
  }

  /** One FAQ entry. */
  datatype Faq = Faq(question: string, answer: string)

  const FaqHeader: string := "Часто задаваемые вопросы:\n"
  const FaqFooter: string := "\n\nОтправьте номер или текст вопроса для получения ответа."
  const NotFoundReply: string := "Вопрос не найден. Пожалуйста, выберите из списка."

  /** The line `"<i+1>. <question>"` of the list. */
  function FaqLine(i: nat, question: string): string {
    NatToString(i + 1) + ". " + question
  }

  /** The numbered lines, one per FAQ, in order. */
  function FaqLines(faqs: seq<Faq>): (lines: seq<string>)
    ensures |lines| == |faqs|
  {
    seq(|faqs|, i requires 0 <= i < |faqs| => FaqLine(i, faqs[i].question))
  }

  /** The text shown by the `/faq` command. */
  function FaqListText(faqs: seq<Faq>): string {
    FaqHeader + Join("\n", FaqLines(faqs)) + FaqFooter
  }

  /** The list opens with the header, closes with the instruction, and shows every question
      behind its one-based number. */
  lemma FaqListShowsEvery(faqs: seq<Faq>, i: nat)
    requires i < |faqs|
    ensures StartsWith(FaqListText(faqs), FaqHeader)
    ensures FaqListText(faqs)[|FaqListText(faqs)| - |FaqFooter|..] == FaqFooter
    ensures IsSubstring(NatToString(i + 1) + ". " + faqs[i].question, FaqListText(faqs))
  {
    var body := Join("\n", FaqLines(faqs));
    var t := FaqListText(faqs);
    assert t[..|FaqHeader|] == FaqHeader;
    JoinContainsPart("\n", FaqLines(faqs), i);
    assert t[|FaqHeader|..|FaqHeader| + |body|] == body;
    SubstringOfSlice(FaqLines(faqs)[i], t, |FaqHeader|, |FaqHeader| + |body|);
  }

  /** The `/faq` command: the list text is sent, and for a known user the command, the
      `faq_list_shown` event (with empty details) and the reply are saved in order. */
  method ShowFaqList(store: Store, userId: Option<int>, faqs: seq<Faq>, now: string) returns (text: string)
    modifies store
    ensures text == FaqListText(faqs)
    ensures userId.Some? ==>
              store.history == old(store.history)
                               + [HistoryRow(userId.value, UserMessage, "/faq", now),
                                  HistoryRow(userId.value, "faq_list_shown", "", now),
                                  HistoryRow(userId.value, AssistantReply, text, now)]
    ensures userId.None? ==> store.history == old(store.history)
    ensures store.contacts == old(store.contacts)
  {
    text := FaqListText(faqs);
    if userId.Some? {
      store.SaveHistory(userId.value, UserMessage, Some("/faq"), now);
      store.SaveHistory(userId.value, "faq_list_shown", None, now);
      store.SaveHistory(userId.value, AssistantReply, Some(text), now);
    }
  }

  /** The index of the first FAQ whose question contains `needle` (already lower-cased),
      comparing against the lower-cased question. */
  function FirstContaining(faqs: seq<Faq>, needle: string): (r: Option<nat>)
    ensures r.Some? ==> r.value < |faqs|
  {
    if faqs == [] then None
    else if IsSubstring(needle, Lower(faqs[0].question)) then Some(0)
    else
      match FirstContaining(faqs[1..], needle)
      case None => None
      case Some(i) => Some(i + 1)
  }

  /** The index found is a match with no match before it; `None` means no question matches. */
  lemma {:induction false} FirstContainingSpec(faqs: seq<Faq>, needle: string)
    ensures var r := FirstContaining(faqs, needle);
            && (r.Some? ==>
                  (IsSubstring(needle, Lower(faqs[r.value].question))
                   && forall j :: 0 <= j < r.value ==> !IsSubstring(needle, Lower(faqs[j].question))))
            && (r.None? ==> forall j :: 0 <= j < |faqs| ==> !IsSubstring(needle, Lower(faqs[j].question)))
  {
    if faqs != [] && !IsSubstring(needle, Lower(faqs[0].question)) {
      FirstContainingSpec(faqs[1..], needle);
      assert forall j :: 1 <= j < |faqs| ==> faqs[j] == faqs[1..][j - 1];
    }
  }

  /** The answer chosen for `text` (already stripped): a digit string selects by one-based
      number when in range; other text selects the first question containing it, ignoring case. */
  function FaqAnswer(faqs: seq<Faq>, text: string): Option<string> {
    if IsDigits(text) then
      var n := ParseDecimal(text);
      if 1 <= n <= |faqs| then Some(faqs[n - 1].answer) else None
    else
      match FirstContaining(faqs, Lower(text))
      case None => None
      case Some(i) => Some(faqs[i].answer)
  }

  /** The selection loop of `answer_faq`, stopping at the first matching question. */
  method SelectAnswer(faqs: seq<Faq>, text: string) returns (answer: Option<string>)
    ensures answer == FaqAnswer(faqs, text)
  {
    answer := None;
    if IsDigits(text) {
      var idx := ParseDecimal(text) - 1;
      if 0 <= idx < |faqs| {
        answer := Some(faqs[idx].answer);
      }
    } else {
      var needle := Lower(text);
      var i := 0;
      while i < |faqs|
        invariant 0 <= i <= |faqs| && answer.None?
        invariant FirstContaining(faqs, needle) == OffsetBy(FirstContaining(faqs[i..], needle), i)
      {
        if IsSubstring(needle, Lower(faqs[i].question)) {
          answer := Some(faqs[i].answer);
          break;
        }
        assert faqs[i..][1..] == faqs[i + 1..];
        i := i + 1;
      }
    }
  }

  /** An index found in a suffix, shifted back to the whole list. */
  function OffsetBy(r: Option<nat>, k: nat): Option<nat> {
    match r
    case None => None
    case Some(i) => Some(i + k)
  }

  /** Typing the number shown in front of a question selects that question's answer. */
  lemma NumberShownSelects(faqs: seq<Faq>, i: nat)
    requires i < |faqs|
    ensures FaqAnswer(faqs, NatToString(i + 1)) == Some(faqs[i].answer)
  {
    ParseNatToString(i + 1);
  }

  /** `0`, and any number past the end of the list, selects nothing. */
  lemma NumberOutOfRange(faqs: seq<Faq>, n: nat)
    requires n == 0 || n > |faqs|
    ensures FaqAnswer(faqs, NatToString(n)) == None
  {
    ParseNatToString(n);
  }

  /** Non-digit text selects the first question that contains it, ignoring case. */
  lemma TextSelectsFirstMatch(faqs: seq<Faq>, text: string, i: nat)
    requires !IsDigits(text) && i < |faqs|
    requires IsSubstring(Lower(text), Lower(faqs[i].question))
    requires forall j :: 0 <= j < i ==> !IsSubstring(Lower(text), Lower(faqs[j].question))
    ensures FaqAnswer(faqs, text) == Some(faqs[i].answer)
  {
    FirstContainingSpec(faqs, Lower(text));
  }

  /** Non-digit text contained in no question selects nothing. */
  lemma TextWithoutMatch(faqs: seq<Faq>, text: string)
    requires !IsDigits(text)
    requires forall j :: 0 <= j < |faqs| ==> !IsSubstring(Lower(text), Lower(faqs[j].question))
    ensures FaqAnswer(faqs, text) == None
  {
    FirstContainingSpec(faqs, Lower(text));
  }

  /** An empty message is contained in every question, so it selects the first answer. */
  lemma EmptyTextSelectsFirst(faqs: seq<Faq>)
    requires faqs != []
    ensures FaqAnswer(faqs, "") == Some(faqs[0].answer)
  {
    assert StartsWith(Lower(faqs[0].question), Lower(""));
  }

  /** A selected answer is used only when it is non-empty (Python's `if answer:`). */
  predicate Usable(answer: Option<string>) {
    answer.Some? && answer.value != []
  }

  /** The reply sent for a selection: the answer when usable, else "not found". */
  function ReplyFor(answer: Option<string>): string {
    if Usable(answer) then answer.value else NotFoundReply
  }

  /** The reply sent for `text`. */
  function FaqReply(faqs: seq<Faq>, text: string): string {
    ReplyFor(FaqAnswer(faqs, text))
  }

  /** Whether `text` gets a FAQ answer rather than "not found". */
  predicate Answered(faqs: seq<Faq>, text: string) {
    Usable(FaqAnswer(faqs, text))
  }

  /** The history rows `answer_faq` saves for a known user: the message, the outcome, and the
      reply. */
  function FaqRows(userId: int, text: string, answered: bool, reply: string, now: string): seq<HistoryRow> {
    [HistoryRow(userId, UserMessage, text, now),
     HistoryRow(userId, if answered then "faq_answered" else "faq_not_found", "question=" + text, now),
     HistoryRow(userId, AssistantReply, reply, now)]
  }

  /** The three `save_history` calls of `answer_faq` for a known user, in order. */
  method SaveFaqExchange(store: Store, userId: int, text: string, answered: bool, reply: string, now: string)
    modifies store
    ensures store.history == old(store.history) + FaqRows(userId, text, answered, reply, now)
    ensures store.contacts == old(store.contacts)
  {
    store.SaveHistory(userId, UserMessage, Some(text), now);
    var outcome := if answered then "faq_answered" else "faq_not_found";
    store.SaveHistory(userId, outcome, Some("question=" + text), now);
    store.SaveHistory(userId, AssistantReply, Some(reply), now);
  }

  /** The answer selection of `answer_faq` and the reply it leads to. */
  method ChooseReply(faqs: seq<Faq>, text: string) returns (answered: bool, sent: string)
    ensures answered == Answered(faqs, text) && sent == FaqReply(faqs, text)
  {
    var answer := SelectAnswer(faqs, text);
    answered := Usable(answer);
    sent := ReplyFor(answer);
  }

  /** The part of `answer_faq` after the FAQ list is known to be there: the stripped message
      is answered and, for a known user, the three rows are saved in order. */
  method RespondFaq(store: Store, userId: Option<int>, faqs: seq<Faq>, text: string, now: string)
    returns (sent: string)
    modifies store
    ensures sent == FaqReply(faqs, text)
    ensures store.history == old(store.history)
                             + if userId.None? then []
                               else FaqRows(userId.value, text, Answered(faqs, text), FaqReply(faqs, text), now)
    ensures store.contacts == old(store.contacts)
  {
    var answered;
    answered, sent := ChooseReply(faqs, text);
    if userId.Some? {
      SaveFaqExchange(store, userId.value, text, answered, sent, now);
    }
  }

  /** `answer_faq`: nothing happens without a FAQ list; otherwise the stripped message is
      answered and, for a known user, the three rows are saved in order. */
  method AnswerFaq(store: Store, userId: Option<int>, faqs: seq<Faq>, message: Option<string>, now: string)
    returns (reply: Option<string>)
    modifies store
    ensures reply == if faqs == [] then None else Some(FaqReply(faqs, Strip(message.GetOr(""))))
    ensures var text := Strip(message.GetOr(""));
            store.history == old(store.history)
                             + if faqs == [] || userId.None? then []
                               else FaqRows(userId.value, text, Answered(faqs, text), FaqReply(faqs, text), now)
    ensures store.contacts == old(store.contacts)
  {
    if faqs == [] {
      reply := None;
    } else {
      var sent := RespondFaq(store, userId, faqs, Strip(message.GetOr("")), now);
      reply := Some(sent);
    }
  }
}
