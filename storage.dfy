/** The event log: two append-only tables, `history` and `contacts`, held as sequences of
    rows in insertion order (a row's position is its autoincrement `id`). Timestamps are
    opaque strings supplied by the caller. */
module Storage {
  import opened Wrappers
  import opened Seqs

  const UserMessage: string := "user_message"
  const AssistantReply: string := "assistant_reply"

  /** The two actions that make up a conversation. */
  predicate IsConversational(action: string) {
    action == UserMessage || action == AssistantReply
  }

  datatype HistoryRow = HistoryRow(userId: int, action: string, details: string, createdAt: string)

  datatype ContactRow = ContactRow(userId: int, name: string, contact: string, createdAt: string)

  /** SQL `LIMIT n`: the first `n` rows; a negative `n` sets no bound. */
  function Limit<T>(rows: seq<T>, n: int): (r: seq<T>)
    ensures |r| == if 0 <= n < |rows| then n else |rows|
    ensures r == rows[..|r|]
  {
    if 0 <= n < |rows| then rows[..n] else rows
  }

  /** Taking the first `n` of the reversed rows and reversing them back keeps the last `n`
      rows, in their original order. */
  lemma NewestRowsInOrder<T>(rows: seq<T>, n: int)
    ensures var k := |Limit(Reverse(rows), n)|;
            Reverse(Limit(Reverse(rows), n)) == rows[|rows| - k..]
  {
    var k := |Limit(Reverse(rows), n)|;
    var r := Reverse(Limit(Reverse(rows), n));
    ReverseAt(rows);
    ReverseAt(Limit(Reverse(rows), n));
    forall i | 0 <= i < k ensures r[i] == rows[|rows| - k + i] {
      assert r[i] == Limit(Reverse(rows), n)[k - 1 - i];
    }
  }

  /** The rows of user `u` among `rows`, or all of them when `u` is `None`, in order. */
  function RowsOf(rows: seq<HistoryRow>, u: Option<int>): (r: seq<HistoryRow>)
    ensures forall row :: row in r <==> row in rows && (u.None? || row.userId == u.value)
    ensures u.None? ==> r == rows
  {
    var keep := (row: HistoryRow) => u.None? || row.userId == u.value;
    assert u.None? ==> Filter(rows, keep) == rows by {
      if u.None? { FilterAll(rows, keep); }
    }
    Filter(rows, keep)
  }

  /** A saved row becomes the last row of the full history and of its user's history; the
      history of every other user is unchanged. */
  lemma RowsOfAppend(rows: seq<HistoryRow>, row: HistoryRow, u: Option<int>)
    ensures RowsOf(rows + [row], u)
            == RowsOf(rows, u) + (if u.None? || row.userId == u.value then [row] else [])
  {
    assert (rows + [row])[..|rows + [row]| - 1] == rows;
  }

  class Store {
    var history: seq<HistoryRow>
    var contacts: seq<ContactRow>

    /** Both tables start empty. */
    constructor ()
      ensures history == [] && contacts == []
      ensures GetContacts() == []
      ensures forall u: int :: GetHistory(Some(u)) == []
      ensures GetHistory(None) == []
    {
      history := [];
      contacts := [];
    }

    /** Appends one contact row; the history table is untouched. */
    method SaveContact(userId: int, name: string, contact: string, now: string)
      modifies this
      ensures contacts == old(contacts) + [ContactRow(userId, name, contact, now)]
      ensures GetContacts() == old(GetContacts()) + [ContactRow(userId, name, contact, now)]
      ensures history == old(history)
    {
      contacts := contacts + [ContactRow(userId, name, contact, now)];
    }

    /** Appends exactly one history row, with `details or ""` as its details; no earlier row
        changes and the contacts are untouched. */
    method SaveHistory(userId: int, action: string, details: Option<string>, now: string)
      modifies this
      ensures history == old(history) + [HistoryRow(userId, action, details.GetOr(""), now)]
      ensures contacts == old(contacts)
    {
      history := history + [HistoryRow(userId, action, details.GetOr(""), now)];
    }

    /** All contact rows, in insertion order. */
    function GetContacts(): seq<ContactRow>
      reads this
    {
      contacts
    }

    /** `get_history(user_id)`: the rows of user `u`, or every row when `u` is `None`,
        in insertion order. */
    function GetHistory(u: Option<int>): (r: seq<HistoryRow>)
      reads this
      ensures forall row :: row in r <==> row in history && (u.None? || row.userId == u.value)
      ensures u.None? ==> r == history
    {
      RowsOf(history, u)
    }

    /** The user's `user_message` and `assistant_reply` rows, in insertion order. */
    function Conversation(userId: int): (r: seq<HistoryRow>)
      reads this
      ensures forall row :: row in r <==>
                row in history && row.userId == userId && IsConversational(row.action)
    {
      Filter(history, (row: HistoryRow) => row.userId == userId && IsConversational(row.action))
    }

    /** `get_recent_history(user_id, limit)`: `ORDER BY id DESC LIMIT limit`, then reversed.
        The result is the `limit` most recent conversational rows of the user (all of them
        when `limit` is negative), oldest first. */
    function GetRecentHistory(userId: int, limit: int): (r: seq<HistoryRow>)
      reads this
      ensures var c := Conversation(userId);
              |r| == (if 0 <= limit < |c| then limit else |c|) && r == c[|c| - |r|..]
      ensures 0 <= limit ==> |r| <= limit
      ensures forall row :: row in r ==>
                row in history && row.userId == userId && IsConversational(row.action)
    {
      var newestFirst := Reverse(Conversation(userId));
      NewestRowsInOrder(Conversation(userId), limit);
      Reverse(Limit(newestFirst, limit))
    }
  }
}
