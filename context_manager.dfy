/** Context assembly: the short-term window of recent turns, lexical long-term recall of
    earlier question/answer pairs, and the final prompt handed to the language model. */
module ContextManager {
  import opened Wrappers
  import opened Seqs
  import opened Text
  import opened Storage

  datatype Role = User | Assistant | System

  /** One `{"role": ..., "content": ...}` message of the prompt. */
  datatype Turn = Turn(role: Role, content: string)

  // ---------------------------------------------------------------------------
  // Short-term window
  // ---------------------------------------------------------------------------

  /** A fetched row enters the window when it is a user or assistant message with
      non-blank details. */
  predicate Kept(row: HistoryRow) {
    IsConversational(row.action) && Strip(row.details) != []
  }

  /** The turn a kept row becomes: its role from the action, its content the stripped details. */
  function TurnOf(row: HistoryRow): Turn {
    Turn(if row.action == UserMessage then User else Assistant, Strip(row.details))
  }

  /** Non-empty, with no whitespace at either end. */
  predicate Stripped(s: string) {
    s != [] && !IsSpace(s[0]) && !IsSpace(s[|s| - 1])
  }

  /** The rows that are kept, mapped to turns, in the order of the rows. */
  function ToTurns(rows: seq<HistoryRow>): (r: seq<Turn>)
    ensures |r| <= |rows|
  {
    if rows == [] then []
    else
      var last := rows[|rows| - 1];
      ToTurns(rows[..|rows| - 1]) + (if Kept(last) then [TurnOf(last)] else [])
  }

  /** Every turn of the window is a user or assistant turn with non-empty, stripped content. */
  lemma {:induction false} ToTurnsShape(rows: seq<HistoryRow>)
    ensures forall t :: t in ToTurns(rows) ==> t.role != System && Stripped(t.content)
  {
    if rows != [] {
      ToTurnsShape(rows[..|rows| - 1]);
    }
  }

  /** Turn building distributes over concatenation of the fetched rows: chronological order
      is preserved and every row is handled on its own. */
  lemma {:induction false} ToTurnsAppend(a: seq<HistoryRow>, b: seq<HistoryRow>)
    ensures ToTurns(a + b) == ToTurns(a) + ToTurns(b)
    decreases |b|
  {
    if b == [] {
      assert a + b == a;
    } else {
      var b' := b[..|b| - 1];
      assert (a + b)[..|a + b| - 1] == a + b';
      ToTurnsAppend(a, b');
    }
  }

  /** One row on its own: a `user_message` becomes a `user` turn and an `assistant_reply` an
      `assistant` turn carrying the stripped details, unless the details are blank; every
      other row is dropped. */
  lemma ToTurnsOfRow(row: HistoryRow)
    ensures ToTurns([row]) ==
      if row.action == UserMessage && !IsBlank(row.details) then [Turn(User, Strip(row.details))]
      else if row.action == AssistantReply && !IsBlank(row.details) then [Turn(Assistant, Strip(row.details))]
      else []
  {
    assert [row][..0] == [];
    StripSpec(row.details);
  }

  /** The summed length of the turns' contents. */
  function TotalLength(turns: seq<Turn>): nat {
    if turns == [] then 0
    else TotalLength(turns[..|turns| - 1]) + |turns[|turns| - 1].content|
  }

  /** The newest turns that fit in `budget`, walking back from the newest and stopping at the
      first turn that does not fit. */
  function NewestWithin(turns: seq<Turn>, budget: int): (r: seq<Turn>)
    ensures |r| <= |turns|
  {
    if turns == [] then []
    else
      var last := turns[|turns| - 1];
      if |last.content| <= budget then NewestWithin(turns[..|turns| - 1], budget - |last.content|) + [last]
      else []
  }

  /** The turns kept are a suffix of `turns` whose total fits in the budget, and the turn just
      before them (if any) would have overflowed it. */
  lemma {:induction false} NewestWithinSpec(turns: seq<Turn>, budget: int)
    ensures var r := NewestWithin(turns, budget);
            && r == turns[|turns| - |r|..]
            && (r != [] ==> TotalLength(r) <= budget)
            && (|r| < |turns| ==> TotalLength(r) + |turns[|turns| - |r| - 1].content| > budget)
  {
    if turns != [] {
      var init := turns[..|turns| - 1];
      var last := turns[|turns| - 1];
      NewestWithinStep(turns, budget);
      if |last.content| <= budget {
        var b' := budget - |last.content|;
        NewestWithinSpec(init, b');
        var r' := NewestWithin(init, b');
        TotalLengthSnoc(r', last);
        SuffixSnoc(turns, |r'|);
        if |r'| < |init| {
          assert turns[|turns| - |r'| - 2] == init[|init| - |r'| - 1];
        }
      }
    }
  }

  /** A suffix of the prefix, extended by the last element, is a suffix of the whole. */
  lemma SuffixSnoc<T>(s: seq<T>, k: nat)
    requires k < |s|
    ensures s[..|s| - 1][|s| - 1 - k..] + [s[|s| - 1]] == s[|s| - 1 - k..]
  {
    var a := s[..|s| - 1][|s| - 1 - k..] + [s[|s| - 1]];
    var b := s[|s| - 1 - k..];
    assert |a| == |b|;
    forall i | 0 <= i < |a| ensures a[i] == b[i] {
      if i < k {
        assert a[i] == s[|s| - 1 - k + i];
      }
    }
  }

  lemma TotalLengthSnoc(s: seq<Turn>, t: Turn)
    ensures TotalLength(s + [t]) == TotalLength(s) + |t.content|
  {
    assert (s + [t])[..|s|] == s;
  }

  /** One step of `NewestWithin`: the newest turn is taken when it fits, and nothing is taken
      when it does not. */
  lemma NewestWithinStep(turns: seq<Turn>, budget: int)
    requires turns != []
    ensures var last := turns[|turns| - 1];
            NewestWithin(turns, budget) ==
              if |last.content| <= budget then NewestWithin(turns[..|turns| - 1], budget - |last.content|) + [last]
              else []
  {
  }

  /** The character budget: unchanged when everything fits, otherwise the newest turns that
      fit. */
  function TrimToBudget(turns: seq<Turn>, maxLength: int): (r: seq<Turn>)
    ensures |r| <= |turns|
  {
    if TotalLength(turns) > maxLength then NewestWithin(turns, maxLength) else turns
  }

  /** The budget keeps a suffix of the turns within the budget: all of them when they fit,
      none when the newest turn alone is over budget, and nothing for a negative budget. */
  lemma TrimToBudgetSpec(turns: seq<Turn>, maxLength: int)
    ensures var r := TrimToBudget(turns, maxLength);
            && r == turns[|turns| - |r|..]
            && (0 <= maxLength ==> TotalLength(r) <= maxLength)
            && (maxLength < 0 ==> r == [])
            && (TotalLength(turns) <= maxLength ==> r == turns)
            && (turns != [] && |turns[|turns| - 1].content| > maxLength ==> r == [])
  {
    if TotalLength(turns) > maxLength {
      NewestWithinSpec(turns, maxLength);
      if turns != [] {
        NewestWithinStep(turns, maxLength);
      }
    } else {
      assert turns[|turns| - |turns|..] == turns;
      if turns != [] {
        assert TotalLength(turns) >= |turns[|turns| - 1].content|;
      }
    }
  }

  /** A suffix holds only elements of the sequence. */
  lemma SuffixMembers<T>(s: seq<T>, k: nat)
    requires k <= |s|
    ensures forall x :: x in s[k..] ==> x in s
  {
  }

  /** The window built from the fetched rows. */
  function ContextWindow(rows: seq<HistoryRow>, maxLength: int): (r: seq<Turn>)
    ensures |r| <= |rows|
  {
    TrimToBudget(ToTurns(rows), maxLength)
  }

  /** The window is a contiguous, newest-last run of the kept turns within the budget, each a
      user or assistant turn with non-empty, stripped content. */
  lemma ContextWindowSpec(rows: seq<HistoryRow>, maxLength: int)
    ensures var all := ToTurns(rows);
            var r := ContextWindow(rows, maxLength);
            && r == all[|all| - |r|..]
            && (0 <= maxLength ==> TotalLength(r) <= maxLength)
            && (TotalLength(all) <= maxLength ==> r == all)
            && (forall t :: t in r ==> t.role != System && Stripped(t.content))
  {
    var all := ToTurns(rows);
    var r := ContextWindow(rows, maxLength);
    TrimToBudgetSpec(all, maxLength);
    ToTurnsShape(rows);
    SuffixMembers(all, |all| - |r|);
  }

  // ---------------------------------------------------------------------------
  // Long-term recall: pair reconstruction
  // ---------------------------------------------------------------------------

  /** A question and its answer, with the time the question was asked. */
  datatype Pair = Pair(user: string, assistant: string, timestamp: Option<string>)

  /** The state of the scan over the full history: the stored pairs and the open pair. */
  datatype PairScan = PairScan(pairs: seq<Pair>, current: Pair)

  const NoPair: Pair := Pair("", "", None)

  predicate Complete(p: Pair) {
    p.user != [] && p.assistant != []
  }

  /** One history row: a `user_message` stores the open pair if it is complete and opens a
      new one; an `assistant_reply` sets the open pair's answer while its question is
      non-empty; any other row changes nothing. */
  function ScanStep(st: PairScan, e: HistoryRow): PairScan {
    if e.action == UserMessage then
      PairScan(if Complete(st.current) then st.pairs + [st.current] else st.pairs,
               Pair(e.details, "", Some(e.createdAt)))
    else if e.action == AssistantReply && st.current.user != [] then
      PairScan(st.pairs, st.current.(assistant := e.details))
    else st
  }

  /** The scan over `rows` in chronological order. Only complete pairs are ever stored, and
      every pair with a question carries a timestamp. The potential `2·|pairs|` plus one for
      an open question plus one for an answer never exceeds the number of rows read. */
  function Scan(rows: seq<HistoryRow>): (st: PairScan)
    ensures forall p :: p in st.pairs ==> Complete(p) && p.timestamp.Some?
    ensures st.current.user != [] ==> st.current.timestamp.Some?
    ensures 2 * |st.pairs| + (if st.current.user != [] then 1 else 0)
            + (if Complete(st.current) then 1 else 0) <= |rows|
  {
    if rows == [] then PairScan([], NoPair)
    else ScanStep(Scan(rows[..|rows| - 1]), rows[|rows| - 1])
  }

  /** The stored pairs plus the last open pair when it is complete. */
  function Pairs(rows: seq<HistoryRow>): (r: seq<Pair>)
    ensures forall p :: p in r ==> Complete(p) && p.timestamp.Some?
    ensures 2 * |r| <= |rows|
  {
    var st := Scan(rows);
    if Complete(st.current) then st.pairs + [st.current] else st.pairs
  }

  lemma ScanAppend(rows: seq<HistoryRow>, e: HistoryRow)
    ensures Scan(rows + [e]) == ScanStep(Scan(rows), e)
  {
    assert (rows + [e])[..|rows|] == rows;
  }

  /** A trailing question without an answer is never recalled. */
  lemma UnansweredQuestionNotRecalled(rows: seq<HistoryRow>, e: HistoryRow)
    requires e.action == UserMessage
    ensures Pairs(rows + [e]) == Pairs(rows)
  {
    ScanAppend(rows, e);
  }

  /** Rows other than user and assistant messages do not affect recall. */
  lemma OtherActionsIgnored(rows: seq<HistoryRow>, e: HistoryRow)
    requires !IsConversational(e.action)
    ensures Pairs(rows + [e]) == Pairs(rows)
  {
    ScanAppend(rows, e);
  }

  /** A question followed by its answer is recalled as one pair, after the earlier ones. */
  lemma {:induction false} AnsweredQuestionRecalled(rows: seq<HistoryRow>, q: HistoryRow, a: HistoryRow)
    requires q.action == UserMessage && a.action == AssistantReply
    requires q.details != [] && a.details != []
    ensures Pairs(rows + [q, a]) == Pairs(rows) + [Pair(q.details, a.details, Some(q.createdAt))]
  {
    ScanAppend(rows, q);
    assert rows + [q, a] == (rows + [q]) + [a];
    ScanAppend(rows + [q], a);
  }

  /** A second reply to the same question replaces the first one. */
  lemma {:induction false} LaterReplyOverwrites(rows: seq<HistoryRow>, q: HistoryRow, a1: HistoryRow, a2: HistoryRow)
    requires q.action == UserMessage && a1.action == AssistantReply && a2.action == AssistantReply
    requires q.details != [] && a2.details != []
    ensures Pairs(rows + [q, a1, a2]) == Pairs(rows) + [Pair(q.details, a2.details, Some(q.createdAt))]
  {
    ScanAppend(rows, q);
    assert rows + [q, a1] == (rows + [q]) + [a1];
    ScanAppend(rows + [q], a1);
    assert rows + [q, a1, a2] == (rows + [q, a1]) + [a2];
    ScanAppend(rows + [q, a1], a2);
  }

  /** A reply while no question is open is ignored. */
  lemma ReplyWithoutQuestionIgnored(rows: seq<HistoryRow>, e: HistoryRow)
    requires e.action == AssistantReply && Scan(rows).current.user == []
    ensures Pairs(rows + [e]) == Pairs(rows)
  {
    ScanAppend(rows, e);
  }

  // ---------------------------------------------------------------------------
  // Long-term recall: scoring and ranking
  // ---------------------------------------------------------------------------

  /** The query's keywords: the `\w+` runs of the lower-cased query, duplicates kept. */
  function Keywords(query: string): seq<string> {
    Words(Lower(query))
  }

  /** Two points for a keyword found in the question, one for a keyword found in the answer. */
  function KeywordScore(keyword: string, p: Pair): nat {
    (if IsSubstring(keyword, Lower(p.user)) then 2 else 0)
    + (if IsSubstring(keyword, Lower(p.assistant)) then 1 else 0)
  }

  /** The summed score of all keywords against one pair. */
  function Score(keywords: seq<string>, p: Pair): nat {
    if keywords == [] then 0
    else Score(keywords[..|keywords| - 1], p) + KeywordScore(keywords[|keywords| - 1], p)
  }

  /** A pair scores at most three points per keyword. */
  lemma {:induction false} ScoreAtMost(keywords: seq<string>, p: Pair)
    ensures Score(keywords, p) <= 3 * |keywords|
  {
    if keywords != [] {
      ScoreAtMost(keywords[..|keywords| - 1], p);
    }
  }

  /** A pair scores above zero exactly when some keyword occurs, ignoring case, in its
      question or in its answer. */
  lemma {:induction false} ScorePositiveIff(keywords: seq<string>, p: Pair)
    ensures Score(keywords, p) > 0 <==>
      exists k :: k in keywords && (IsSubstring(k, Lower(p.user)) || IsSubstring(k, Lower(p.assistant)))
  {
    if keywords != [] {
      var init := keywords[..|keywords| - 1];
      var last := keywords[|keywords| - 1];
      ScorePositiveIff(init, p);
      assert keywords == init + [last];
      if exists k :: k in keywords && (IsSubstring(k, Lower(p.user)) || IsSubstring(k, Lower(p.assistant))) {
        var k :| k in keywords && (IsSubstring(k, Lower(p.user)) || IsSubstring(k, Lower(p.assistant)));
        if k != last {
          assert k in init;
        }
      }
    }
  }

  /** A pair with its score. */
  datatype Scored = Scored(score: int, pair: Pair)

  /** The pairs with a positive score, each with its score, in encounter order. */
  function ScorePairs(pairs: seq<Pair>, keywords: seq<string>): (r: seq<Scored>)
    ensures |r| <= |pairs|
    ensures forall s :: s in r <==> s.pair in pairs && s.score == Score(keywords, s.pair) && s.score > 0
  {
    if pairs == [] then []
    else
      var last := pairs[|pairs| - 1];
      var sc := Score(keywords, last);
      assert pairs == pairs[..|pairs| - 1] + [last];
      ScorePairs(pairs[..|pairs| - 1], keywords) + (if sc > 0 then [Scored(sc, last)] else [])
  }

  /** Scoring distributes over concatenation: surviving pairs keep their encounter order. */
  lemma {:induction false} ScorePairsAppend(a: seq<Pair>, b: seq<Pair>, keywords: seq<string>)
    ensures ScorePairs(a + b, keywords) == ScorePairs(a, keywords) + ScorePairs(b, keywords)
    decreases |b|
  {
    if b == [] {
      assert a + b == a;
    } else {
      var b' := b[..|b| - 1];
      assert (a + b)[..|a + b| - 1] == a + b';
      ScorePairsAppend(a, b', keywords);
    }
  }

  predicate SortedByScore(s: seq<Scored>) {
    forall i, j :: 0 <= i < j < |s| ==> s[i].score >= s[j].score
  }

  /** Selects the elements with score `k`. */
  function WithScore(k: int): Scored -> bool {
    (s: Scored) => s.score == k
  }

  /** Puts `x` before the first element whose score is not above its own. */
  function InsertByScore(x: Scored, s: seq<Scored>): (r: seq<Scored>)
    ensures |r| == |s| + 1
    ensures multiset(r) == multiset(s) + multiset{x}
    ensures r[0] == x || (s != [] && r[0] == s[0])
  {
    if s == [] || s[0].score <= x.score then [x] + s
    else
      assert s == [s[0]] + s[1..];
      [s[0]] + InsertByScore(x, s[1..])
  }

  /** Inserting into a sequence sorted by descending score keeps it sorted. */
  lemma {:induction false} InsertByScoreSorted(x: Scored, s: seq<Scored>)
    requires SortedByScore(s)
    ensures SortedByScore(InsertByScore(x, s))
  {
    if s != [] && s[0].score > x.score {
      var rest := InsertByScore(x, s[1..]);
      InsertByScoreSorted(x, s[1..]);
      var r := [s[0]] + rest;
      forall i, j | 0 <= i < j < |r| ensures r[i].score >= r[j].score {
        if i == 0 {
          assert r[j] == rest[j - 1];
          assert rest[0].score >= rest[j - 1].score;
        } else {
          assert r[i] == rest[i - 1] && r[j] == rest[j - 1];
        }
      }
    }
  }

  /** `list.sort(reverse=True, key=score)`: descending by score, stable on ties; a
      permutation of its input. */
  function SortByScore(s: seq<Scored>): (r: seq<Scored>)
    ensures |r| == |s|
    ensures multiset(r) == multiset(s)
  {
    if s == [] then []
    else
      assert s == [s[0]] + s[1..];
      InsertByScore(s[0], SortByScore(s[1..]))
  }

  /** The sort's result is ordered by descending score. */
  lemma {:induction false} SortByScoreSorted(s: seq<Scored>)
    ensures SortedByScore(SortByScore(s))
  {
    if s != [] {
      SortByScoreSorted(s[1..]);
      InsertByScoreSorted(s[0], SortByScore(s[1..]));
    }
  }

  lemma FilterSingle(x: Scored, k: int)
    ensures Filter([x], WithScore(k)) == if x.score == k then [x] else []
  {
    assert [x][..0] == [];
  }

  /** Inserting `x` keeps, for every score, the order of the elements with that score,
      with `x` first among its equals. */
  lemma SwapPastEmpty<T>(a: seq<T>, b: seq<T>, c: seq<T>)
    requires a == [] || b == []
    ensures a + (b + c) == b + (a + c)
  {
    if a == [] {
      assert a + (b + c) == b + c && a + c == c;
    } else {
      assert b + (a + c) == a + c && b + c == c;
    }
  }

  lemma {:induction false} InsertByScoreStable(x: Scored, s: seq<Scored>, k: int)
    ensures Filter(InsertByScore(x, s), WithScore(k)) == Filter([x], WithScore(k)) + Filter(s, WithScore(k))
  {
    var p := WithScore(k);
    if s == [] || s[0].score <= x.score {
      FilterAppend([x], s, p);
    } else {
      var rest := InsertByScore(x, s[1..]);
      InsertByScoreStable(x, s[1..], k);
      FilterAppend([s[0]], rest, p);
      FilterAppend([s[0]], s[1..], p);
      assert s == [s[0]] + s[1..];
      FilterSingle(x, k);
      FilterSingle(s[0], k);
      assert InsertByScore(x, s) == [s[0]] + rest;
      SwapPastEmpty(Filter([s[0]], p), Filter([x], p), Filter(s[1..], p));
    }
  }

  /** The sort is stable: for every score, the elements with that score appear in the same
      order as in the input. */
  lemma {:induction false} SortByScoreStable(s: seq<Scored>, k: int)
    ensures Filter(SortByScore(s), WithScore(k)) == Filter(s, WithScore(k))
  {
    if s != [] {
      SortByScoreStable(s[1..], k);
      InsertByScoreStable(s[0], SortByScore(s[1..]), k);
      FilterAppend([s[0]], s[1..], WithScore(k));
      assert s == [s[0]] + s[1..];
    }
  }

  // ---------------------------------------------------------------------------
  // Long-term recall: packing into the character budget
  // ---------------------------------------------------------------------------

  /** The `"User: <u>\nAssistant: <a>"` text of a pair; only this part counts against the budget. */
  function MemoryText(p: Pair): string {
    "User: " + p.user + "\nAssistant: " + p.assistant
  }

  /** Python's `str()` of the stored timestamp. */
  function TimestampText(ts: Option<string>): string {
    match ts
    case Some(t) => t
    case None => "None"
  }

  /** The system turn a recalled pair becomes. */
  function MemoryTurn(p: Pair): Turn {
    Turn(System, "Relevant past conversation from " + TimestampText(p.timestamp) + ":\n" + MemoryText(p))
  }

  /** The summed length of the memory texts of `s`. */
  function TextLength(s: seq<Scored>): nat {
    if s == [] then 0 else |MemoryText(s[0].pair)| + TextLength(s[1..])
  }

  /** The ranked pairs, in order, while their memory texts fit in `budget`; packing stops at the
      first pair that does not fit. */
  function PackMemories(top: seq<Scored>, budget: int): (r: seq<Turn>)
    ensures |r| <= |top|
  {
    if top == [] then []
    else
      var len := |MemoryText(top[0].pair)|;
      if len <= budget then [MemoryTurn(top[0].pair)] + PackMemories(top[1..], budget - len)
      else []
  }

  /** Packing yields the memory turns of a prefix of `top` whose texts fit in the budget, and
      the next pair (if any) would overflow it. */
  lemma {:induction false} PackMemoriesSpec(top: seq<Scored>, budget: int)
    ensures var r := PackMemories(top, budget);
            && (forall i :: 0 <= i < |r| ==> r[i] == MemoryTurn(top[i].pair))
            && (r != [] ==> TextLength(top[..|r|]) <= budget)
            && (|r| < |top| ==> TextLength(top[..|r|]) + |MemoryText(top[|r|].pair)| > budget)
  {
    if top != [] {
      var len := |MemoryText(top[0].pair)|;
      if len <= budget {
        PackMemoriesSpec(top[1..], budget - len);
        var rest := PackMemories(top[1..], budget - len);
        var r := PackMemories(top, budget);
        assert r == [MemoryTurn(top[0].pair)] + rest;
        assert top[..|r|][1..] == top[1..][..|rest|];
        if |r| < |top| {
          assert top[|r|] == top[1..][|rest|];
        }
      } else {
        assert top[..0] == [];
      }
    }
  }

  /** The ranked candidates: the positively scored pairs, best first, ties in encounter order. */
  function Ranked(rows: seq<HistoryRow>, query: string): seq<Scored> {
    SortByScore(ScorePairs(Pairs(rows), Keywords(query)))
  }

  /** The recalled memories for a query over the full history. */
  function Recall(rows: seq<HistoryRow>, query: string, maxResults: int, budget: int): seq<Turn> {
    PackMemories(SlicePrefix(Ranked(rows, query), maxResults), budget)
  }

  /** The ranking is sorted by descending score and holds only complete pairs of the history,
      each with its positive score. */
  lemma RankedSpec(rows: seq<HistoryRow>, query: string)
    ensures SortedByScore(Ranked(rows, query))
    ensures forall s :: s in Ranked(rows, query) ==>
              s.pair in Pairs(rows) && Complete(s.pair) && s.score == Score(Keywords(query), s.pair) && s.score > 0
  {
    var scored := ScorePairs(Pairs(rows), Keywords(query));
    var ranked := Ranked(rows, query);
    SortByScoreSorted(scored);
    assert forall s :: s in ranked ==> s in multiset(ranked);
  }

  /** Cutting a ranking to its first `maxResults` entries and packing them yields the memory
      turns of a prefix of the ranking, at most `maxResults` of them, within the budget. */
  lemma PackTopSpec(ranked: seq<Scored>, maxResults: int, budget: int)
    ensures var r := PackMemories(SlicePrefix(ranked, maxResults), budget);
            && |r| <= |ranked|
            && (0 <= maxResults ==> |r| <= maxResults)
            && (forall i :: 0 <= i < |r| ==> r[i] == MemoryTurn(ranked[i].pair))
            && (r != [] ==> TextLength(ranked[..|r|]) <= budget)
            && (budget < 0 ==> r == [])
  {
    var top := SlicePrefix(ranked, maxResults);
    var r := PackMemories(top, budget);
    PackMemoriesSpec(top, budget);
    assert top[..|r|] == ranked[..|r|];
  }

  /** What recall promises: system turns for a prefix of the ranking, at most `maxResults` of
      them, with the memory texts within the budget. */
  lemma RecallSpec(rows: seq<HistoryRow>, query: string, maxResults: int, budget: int)
    ensures var ranked := Ranked(rows, query);
            var r := Recall(rows, query, maxResults, budget);
            && |r| <= |ranked|
            && (0 <= maxResults ==> |r| <= maxResults)
            && (forall i :: 0 <= i < |r| ==> r[i] == MemoryTurn(ranked[i].pair))
            && (r != [] ==> TextLength(ranked[..|r|]) <= budget)
            && (budget < 0 ==> r == [])
  {
    PackTopSpec(Ranked(rows, query), maxResults, budget);
  }

  /** Every recalled memory is a system turn. */
  lemma RecallAllSystem(rows: seq<HistoryRow>, query: string, maxResults: int, budget: int)
    ensures forall t :: t in Recall(rows, query, maxResults, budget) ==> t.role == System
  {
    RecallSpec(rows, query, maxResults, budget);
  }

  // ---------------------------------------------------------------------------
  // Message assembly
  // ---------------------------------------------------------------------------

  /** The fixed system directive that opens every prompt. */
  const SystemPromptText: string :=
    "Ты — умный и внимательный собеседник, ведущий живой диалог с пользователем в формате чата. "
    + "Ниже приведена история вашей переписки: это последовательность сообщений, где роль 'user' — это пользователь, а 'assistant' — ты, ассистент. "
    + "Ты обладаешь памятью: можешь ссылаться на предыдущие сообщения, вспоминать детали прошлых обсуждений, поддерживать контекст и нить разговора. "
    + "Если пользователь спрашивает о своих или твоих прошлых репликах, ищи их в истории ниже и используй для ответа. "
    + "Старайся быть последовательным, не повторяйся, не теряй тему, реагируй на намёки и уточнения пользователя. "
    + "Веди себя естественно, дружелюбно и профессионально, как человек, который действительно помнит, о чём шла речь ранее. "
    + "Если в истории есть незавершённые вопросы или темы — можешь предложить к ним вернуться. "
    + "Всегда отвечай на русском языке, если не указано иное."

  /** The first loop of `get_user_context`: every conversational row with non-blank details
      becomes a turn with the stripped details, in order. */
  method CollectTurns(history: seq<HistoryRow>) returns (messages: seq<Turn>)
    ensures messages == ToTurns(history)
  {
    messages := [];
    var i := 0;
    while i < |history|
      invariant 0 <= i <= |history|
      invariant messages == ToTurns(history[..i])
    {
      var entry := history[i];
      assert history[..i + 1][..i] == history[..i];
      ghost var next := messages + (if Kept(entry) then [TurnOf(entry)] else []);
      assert ToTurns(history[..i + 1]) == next;
      if IsConversational(entry.action) {
        var role := if entry.action == UserMessage then User else Assistant;
        var content := entry.details;
        if content != [] && Strip(content) != [] {
          messages := messages + [Turn(role, Strip(content))];
        }
      }
      assert messages == next;
      i := i + 1;
    }
    assert history[..i] == history;
  }

  /** The trimming step of `get_user_context`: when the total exceeds `maxLength`, walk back
      from the newest turn, prepending while the running length stays within the budget, and
      stop at the first turn that does not fit. */
  method TrimNewest(recent: seq<Turn>, maxLength: int) returns (trimmed: seq<Turn>)
    ensures trimmed == TrimToBudget(recent, maxLength)
  {
    if TotalLength(recent) <= maxLength {
      return recent;
    }
    trimmed := [];
    var current := 0;
    var j := |recent|;
    assert recent[..j] == recent;
    while j > 0
      invariant 0 <= j <= |recent|
      invariant NewestWithin(recent, maxLength) == NewestWithin(recent[..j], maxLength - current) + trimmed
    {
      var msg := recent[j - 1];
      NewestWithinStep(recent[..j], maxLength - current);
      assert recent[..j][..j - 1] == recent[..j - 1];
      if current + |msg.content| <= maxLength {
        trimmed := [msg] + trimmed;
        current := current + |msg.content|;
        j := j - 1;
      } else {
        break;
      }
    }
    assert NewestWithin(recent[..j], maxLength - current) == [];
  }

  /** The pair-reconstruction loop of `search_long_term_memory`. */
  method CollectPairs(history: seq<HistoryRow>) returns (pairs: seq<Pair>)
    ensures pairs == Pairs(history)
  {
    pairs := [];
    var current := NoPair;
    var i := 0;
    while i < |history|
      invariant 0 <= i <= |history|
      invariant PairScan(pairs, current) == Scan(history[..i])
    {
      var entry := history[i];
      assert history[..i + 1][..i] == history[..i];
      ghost var next := ScanStep(PairScan(pairs, current), entry);
      assert Scan(history[..i + 1]) == next;
      if entry.action == UserMessage {
        if current.user != [] && current.assistant != [] {
          pairs := pairs + [current];
        }
        current := Pair(entry.details, "", Some(entry.createdAt));
      } else if entry.action == AssistantReply && current.user != [] {
        current := current.(assistant := entry.details);
      }
      assert PairScan(pairs, current) == next;
      i := i + 1;
    }
    assert history[..i] == history;
    if current.user != [] && current.assistant != [] {
      pairs := pairs + [current];
    }
  }

  /** The inner scoring loop: two points per keyword found in the question, one per keyword
      found in the answer. */
  method ScorePair(pair: Pair, keywords: seq<string>) returns (score: int)
    ensures score == Score(keywords, pair)
  {
    score := 0;
    var k := 0;
    while k < |keywords|
      invariant 0 <= k <= |keywords|
      invariant score == Score(keywords[..k], pair)
    {
      var keyword := keywords[k];
      assert keywords[..k + 1][..k] == keywords[..k];
      if IsSubstring(keyword, Lower(pair.user)) {
        score := score + 2;
      }
      if IsSubstring(keyword, Lower(pair.assistant)) {
        score := score + 1;
      }
      k := k + 1;
    }
    assert keywords[..k] == keywords;
  }

  /** The outer scoring loop: the pairs with a positive score, with their scores, in order. */
  method ScoreAll(pairs: seq<Pair>, keywords: seq<string>) returns (scored: seq<Scored>)
    ensures scored == ScorePairs(pairs, keywords)
  {
    scored := [];
    var j := 0;
    while j < |pairs|
      invariant 0 <= j <= |pairs|
      invariant scored == ScorePairs(pairs[..j], keywords)
    {
      var pair := pairs[j];
      assert pairs[..j + 1][..j] == pairs[..j];
      var score := ScorePair(pair, keywords);
      if score > 0 {
        scored := scored + [Scored(score, pair)];
      }
      j := j + 1;
    }
    assert pairs[..j] == pairs;
  }

  /** The packing loop: memory turns for the ranked pairs while the running length of their
      texts stays within `budget`, stopping at the first that does not fit. */
  method PackTop(top: seq<Scored>, budget: int) returns (memories: seq<Turn>)
    ensures memories == PackMemories(top, budget)
  {
    memories := [];
    var total := 0;
    var m := 0;
    while m < |top|
      invariant 0 <= m <= |top|
      invariant memories + PackMemories(top[m..], budget - total) == PackMemories(top, budget)
    {
      var pair := top[m].pair;
      var memoryText := "User: " + pair.user + "\nAssistant: " + pair.assistant;
      if total + |memoryText| <= budget {
        memories := memories + [Turn(System, "Relevant past conversation from "
                                    + TimestampText(pair.timestamp) + ":\n" + memoryText)];
        total := total + |memoryText|;
      } else {
        break;
      }
      assert top[m..][1..] == top[m + 1..];
      m := m + 1;
    }
  }

  /** The context manager, with its configuration fixed at construction. Integer settings
      keep Python's `int` semantics: a negative message limit fetches every row, a negative
      result count drops results from the end of the ranking, and a negative character
      budget admits nothing. */
  class ContextManager {
    const maxMessages: int
    const maxLength: int
    const longTermEnabled: bool
    const maxLongTermResults: int
    const longTermMemoryLength: int
    /** The system directive; always `SystemPromptText`. */
    const systemPrompt: string

    constructor (maxMessages: int, maxLength: int, longTermEnabled: bool,
                 maxLongTermResults: int, longTermMemoryLength: int)
      ensures this.maxMessages == maxMessages && this.maxLength == maxLength
      ensures this.longTermEnabled == longTermEnabled
      ensures this.maxLongTermResults == maxLongTermResults
      ensures this.longTermMemoryLength == longTermMemoryLength
      ensures systemPrompt == SystemPromptText
    {
      this.maxMessages := maxMessages;
      this.maxLength := maxLength;
      this.longTermEnabled := longTermEnabled;
      this.maxLongTermResults := maxLongTermResults;
      this.longTermMemoryLength := longTermMemoryLength;
      this.systemPrompt := SystemPromptText;
    }

    /** The window `get_user_context` returns: empty when the storage call fails. */
    function WindowFor(store: Store, userId: int, fetchFails: bool): seq<Turn>
      reads store
    {
      if fetchFails then [] else ContextWindow(store.GetRecentHistory(userId, maxMessages), maxLength)
    }

    /** The memories `search_long_term_memory` returns: none when recall is disabled, the query
        is empty or the storage call fails. */
    function MemoriesFor(store: Store, userId: int, query: string, fetchFails: bool): seq<Turn>
      reads store
    {
      if !longTermEnabled || query == [] || fetchFails then []
      else Recall(store.GetHistory(Some(userId)), query, maxLongTermResults, longTermMemoryLength)
    }

    /** `get_user_context`: the window over the user's last `maxMessages` conversational rows;
        empty when the storage call fails (`fetchFails`). */
    method GetUserContext(store: Store, userId: int, fetchFails: bool) returns (turns: seq<Turn>)
      ensures turns == WindowFor(store, userId, fetchFails)
      ensures 0 <= maxMessages ==> |turns| <= maxMessages
      ensures 0 <= maxLength ==> TotalLength(turns) <= maxLength
      ensures forall t :: t in turns ==> t.role != System && Stripped(t.content)
    {
      if fetchFails {
        return [];
      }
      var history := store.GetRecentHistory(userId, maxMessages);
      var messages := CollectTurns(history);
      turns := TrimNewest(messages, maxLength);
      ContextWindowSpec(history, maxLength);
    }

    /** `search_long_term_memory`: nothing when recall is disabled, the query is empty or the
        storage call fails; otherwise the recall over the user's full history. */
    method SearchLongTermMemory(store: Store, userId: int, query: string, fetchFails: bool)
      returns (memories: seq<Turn>)
      ensures memories == MemoriesFor(store, userId, query, fetchFails)
      ensures !longTermEnabled || query == [] || fetchFails ==> memories == []
      ensures 0 <= maxLongTermResults ==> |memories| <= maxLongTermResults
      ensures forall t :: t in memories ==> t.role == System
    {
      if !longTermEnabled || query == [] {
        return [];
      }
      if fetchFails {
        return [];
      }
      var history := store.GetHistory(Some(userId));
      var pairs := CollectPairs(history);
      var keywords := Words(Lower(query));
      var scored := ScoreAll(pairs, keywords);
      scored := SortByScore(scored);
      var top := SlicePrefix(scored, maxLongTermResults);
      memories := PackTop(top, longTermMemoryLength);
      RecallSpec(history, query, maxLongTermResults, longTermMemoryLength);
      RecallAllSystem(history, query, maxLongTermResults, longTermMemoryLength);
    }

    /** `build_messages_with_context`: the system directive, then the recalled memories (only
        when recall is enabled), then the window, then the current message verbatim. */
    method BuildMessagesWithContext(store: Store, userId: int, currentMessage: string,
                                    contextFails: bool, recallFails: bool)
      returns (messages: seq<Turn>)
      ensures var recalled := MemoriesFor(store, userId, currentMessage, recallFails);
              var window := WindowFor(store, userId, contextFails);
              messages == [Turn(System, systemPrompt)] + recalled + window + [Turn(User, currentMessage)]
              && |messages| == 2 + |recalled| + |window|
      ensures messages[0] == Turn(System, systemPrompt)
      ensures messages[|messages| - 1] == Turn(User, currentMessage)
    {
      var context := GetUserContext(store, userId, contextFails);
      var longTerm: seq<Turn> := [];
      if longTermEnabled {
        longTerm := SearchLongTermMemory(store, userId, currentMessage, recallFails);
      }
      messages := [Turn(System, systemPrompt)] + longTerm + context + [Turn(User, currentMessage)];
    }
  }
}
