/** Who takes part in which chat: rows that are only marked deleted, under a unique index that does not
    look at the mark, and a query that counts instead of checking each participant. */
module ChatParticipants {
  import opened Basics

  datatype Who = Who(id: string, kind: string)

  datatype Row = Row(chat: string, who: Who, deleted: bool)

  // ----- the table -----

  predicate SameKey(a: Row, b: Row) { a.chat == b.chat && a.who == b.who }

  /** The unique index on chat, participant and type. */
  predicate Unique(rows: seq<Row>) {
    forall i, j :: 0 <= i < j < |rows| ==> !SameKey(rows[i], rows[j])
  }

  predicate HasRow(rows: seq<Row>, chat: string, who: Who) {
    exists i :: 0 <= i < |rows| && rows[i].chat == chat && rows[i].who == who
  }

  predicate Member(rows: seq<Row>, chat: string, who: Who) {
    Row(chat, who, false) in rows
  }

  /** Insert, doing nothing on a conflict. */
  function Insert(rows: seq<Row>, chat: string, who: Who): seq<Row> {
    if HasRow(rows, chat, who) then rows else rows + [Row(chat, who, false)]
  }

  function InsertAll(rows: seq<Row>, batch: seq<(string, Who)>): seq<Row>
    decreases |batch|
  {
    if batch == [] then rows else InsertAll(Insert(rows, batch[0].0, batch[0].1), batch[1..])
  }

  function Mark(r: Row, chat: string, who: Who): Row {
    if r.chat == chat && r.who == who then r.(deleted := true) else r
  }

  function Remove(rows: seq<Row>, chat: string, who: Who): (r: seq<Row>)
    ensures |r| == |rows|
  {
    seq(|rows|, i requires 0 <= i < |rows| => Mark(rows[i], chat, who))
  }

  // ----- the query -----

  predicate Matches(r: Row, chat: string, whos: set<Who>) {
    r.chat == chat && !r.deleted && r.who in whos
  }

  /** COUNT(*) of a chat's group. */
  function Count(rows: seq<Row>, chat: string, whos: set<Who>): nat {
    if rows == [] then 0 else (if Matches(rows[0], chat, whos) then 1 else 0) + Count(rows[1..], chat, whos)
  }

  function Elements(list: seq<Who>): set<Who> {
    set w | w in list
  }

  /** The chats of the group-by whose count is the length of the list. */
  function Common(rows: seq<Row>, list: seq<Who>): set<string> {
    if list == [] then {}
    else
      set r | r in rows && Matches(r, r.chat, Elements(list)) && Count(rows, r.chat, Elements(list)) == |list| :: r.chat
  }

  class ChatParticipantDao {
    var rows: seq<Row>

    method AddParticipants(participants: seq<(string, Who)>)
      modifies this
      ensures rows == InsertAll(old(rows), participants)
    {
      for i := 0 to |participants|
        invariant InsertAll(rows, participants[i..]) == InsertAll(old(rows), participants)
      {
        var (chat, who) := participants[i];
        if !HasRow(rows, chat, who) {
          rows := rows + [Row(chat, who, false)];
        }
        assert participants[i..][1..] == participants[i + 1..];
      }
    }

    method RemoveParticipant(chatID: string, who: Who)
      modifies this
      ensures rows == Remove(old(rows), chatID, who)
    {
      ghost var before := rows;
      for i := 0 to |rows|
        invariant |rows| == |before|
        invariant forall k :: 0 <= k < |rows| ==> rows[k] == if k < i then Mark(before[k], chatID, who) else before[k]
      {
        if rows[i].chat == chatID && rows[i].who == who && !rows[i].deleted {
          rows := rows[i := rows[i].(deleted := true)];
        }
      }
    }

    /** The clause grows by one disjunct a participant; then group, count and keep. */
    method GetCommonChatIDs(participants: seq<Who>) returns (chats: set<string>)
      ensures chats == Common(rows, participants)
    {
      chats := {};
      if |participants| == 0 { return; }
      var whereClause: set<Who> := {};
      for i := 0 to |participants|
        invariant whereClause == Elements(participants[..i])
      {
        if i == 0 {
          whereClause := {participants[i]};
        } else {
          whereClause := whereClause + {participants[i]};
        }
      }
      assert participants[..|participants|] == participants;
      for i := 0 to |rows|
        invariant forall c :: c in chats <==>
                    Count(rows, c, whereClause) == |participants| &&
                    exists k :: 0 <= k < i && Matches(rows[k], c, whereClause)
      {
        var c := rows[i].chat;
        if Matches(rows[i], c, whereClause) && Count(rows, c, whereClause) == |participants| {
          chats := chats + {c};
        }
      }
    }
  }

  // ----- the index is kept, and what an operation does to membership -----

  lemma InsertEffect(rows: seq<Row>, chat: string, who: Who)
    requires Unique(rows)
    ensures Unique(Insert(rows, chat, who))
    ensures forall c, w :: Member(Insert(rows, chat, who), c, w) <==>
              Member(rows, c, w) || (c == chat && w == who && !HasRow(rows, chat, who))
  {
    if !HasRow(rows, chat, who) {
      var after := Insert(rows, chat, who);
      assert after[|rows|] == Row(chat, who, false);
      forall c, w ensures Member(after, c, w) <==> Member(rows, c, w) || (c == chat && w == who) {
        assert Member(after, c, w) <==> Row(c, w, false) in rows || Row(c, w, false) == Row(chat, who, false);
      }
    }
  }

  lemma RemoveEffect(rows: seq<Row>, chat: string, who: Who)
    requires Unique(rows)
    ensures Unique(Remove(rows, chat, who))
    ensures forall c, w :: HasRow(Remove(rows, chat, who), c, w) <==> HasRow(rows, c, w)
    ensures forall c, w :: Member(Remove(rows, chat, who), c, w) <==> Member(rows, c, w) && !(c == chat && w == who)
  {
    var after := Remove(rows, chat, who);
    forall c, w ensures HasRow(after, c, w) <==> HasRow(rows, c, w) {
      if i :| 0 <= i < |rows| && rows[i].chat == c && rows[i].who == w {
        assert after[i].chat == c && after[i].who == w;
      }
    }
    forall c, w ensures Member(after, c, w) <==> Member(rows, c, w) && !(c == chat && w == who) {
      if Member(rows, c, w) && !(c == chat && w == who) {
        var i :| 0 <= i < |rows| && rows[i] == Row(c, w, false);
        assert after[i] == rows[i];
      }
      if Member(after, c, w) {
        var i :| 0 <= i < |after| && after[i] == Row(c, w, false);
        assert after[i] == Mark(rows[i], chat, who);
      }
    }
  }

  /** A batch makes members exactly of those listed whose key never had a row, and keeps the index. */
  lemma {:induction false} AddEffect(rows: seq<Row>, batch: seq<(string, Who)>)
    requires Unique(rows)
    ensures Unique(InsertAll(rows, batch))
    ensures forall c, w :: HasRow(InsertAll(rows, batch), c, w) <==> HasRow(rows, c, w) || (c, w) in batch
    ensures forall c, w :: Member(InsertAll(rows, batch), c, w) <==>
              Member(rows, c, w) || ((c, w) in batch && !HasRow(rows, c, w))
    decreases |batch|
  {
    if batch != [] {
      var next := Insert(rows, batch[0].0, batch[0].1);
      InsertEffect(rows, batch[0].0, batch[0].1);
      InsertRows(rows, batch[0].0, batch[0].1);
      AddEffect(next, batch[1..]);
      forall c, w ensures (c, w) in batch <==> (c, w) == batch[0] || (c, w) in batch[1..] {
        assert batch == [batch[0]] + batch[1..];
      }
    }
  }

  lemma InsertRows(rows: seq<Row>, chat: string, who: Who)
    ensures forall c, w :: HasRow(Insert(rows, chat, who), c, w) <==> HasRow(rows, c, w) || (c == chat && w == who)
  {
    var after := Insert(rows, chat, who);
    if after != rows { assert after[|rows|] == Row(chat, who, false); }
    forall c, w | HasRow(rows, c, w) ensures HasRow(after, c, w) {
      var i :| 0 <= i < |rows| && rows[i].chat == c && rows[i].who == w;
      assert after[i] == rows[i];
    }
  }

  datatype Event = Add(chat: string, who: Who) | Drop(chat: string, who: Who)

  function Next(rows: seq<Row>, e: Event): seq<Row> {
    match e
    case Add(chat, who) => Insert(rows, chat, who)
    case Drop(chat, who) => Remove(rows, chat, who)
  }

  function After(rows: seq<Row>, es: seq<Event>): seq<Row>
    decreases |es|
  {
    if es == [] then rows else After(Next(rows, es[0]), es[1..])
  }

  lemma {:induction false} RunKeepsUnique(rows: seq<Row>, es: seq<Event>)
    requires Unique(rows)
    ensures Unique(After(rows, es))
    decreases |es|
  {
    if es != [] {
      if es[0].Add? { InsertEffect(rows, es[0].chat, es[0].who); } else { RemoveEffect(rows, es[0].chat, es[0].who); }
      RunKeepsUnique(Next(rows, es[0]), es[1..]);
    }
  }

  /** The index does not look at the mark: a participant once removed can never be added again. */
  lemma {:induction false} RemovedForGood(rows: seq<Row>, chat: string, who: Who, es: seq<Event>)
    requires Unique(rows) && HasRow(rows, chat, who) && !Member(rows, chat, who)
    ensures !Member(After(rows, es), chat, who)
    decreases |es|
  {
    if es != [] {
      var next := Next(rows, es[0]);
      if es[0].Add? {
        InsertEffect(rows, es[0].chat, es[0].who);
        var i :| 0 <= i < |rows| && rows[i].chat == chat && rows[i].who == who;
        assert next[i] == rows[i];
      } else {
        RemoveEffect(rows, es[0].chat, es[0].who);
      }
      RemovedForGood(next, chat, who, es[1..]);
    }
  }

  // ----- counting is checking -----

  function MembersAmong(rows: seq<Row>, chat: string, whos: set<Who>): set<Who> {
    set w | w in whos && Member(rows, chat, w)
  }

  /** Under the index the group's count is the number of listed members. */
  lemma {:induction false} CountMembers(rows: seq<Row>, chat: string, whos: set<Who>)
    requires Unique(rows)
    ensures Count(rows, chat, whos) == |MembersAmong(rows, chat, whos)|
  {
    if rows == [] {
      assert MembersAmong(rows, chat, whos) == {};
    } else {
      CountMembers(rows[1..], chat, whos);
      MembersStep(rows, chat, whos);
    }
  }

  lemma MembersStep(rows: seq<Row>, chat: string, whos: set<Who>)
    requires rows != [] && Unique(rows)
    ensures |MembersAmong(rows, chat, whos)| ==
              |MembersAmong(rows[1..], chat, whos)| + if Matches(rows[0], chat, whos) then 1 else 0
  {
    var first, rest := rows[0], rows[1..];
    var members, others := MembersAmong(rows, chat, whos), MembersAmong(rest, chat, whos);
    forall w ensures Member(rows, chat, w) <==> Member(rest, chat, w) || first == Row(chat, w, false) {
      assert rows == [first] + rest;
    }
    if Matches(first, chat, whos) {
      assert members == others + {first.who};
      assert forall i :: 0 <= i < |rest| ==> rest[i] == rows[i + 1] && !SameKey(first, rest[i]);
      assert first.who !in others;
    } else {
      assert members == others;
    }
  }

  predicate NoDuplicates(list: seq<Who>) {
    forall i, j :: 0 <= i < j < |list| ==> list[i] != list[j]
  }

  lemma {:induction false} ElementsSize(list: seq<Who>)
    ensures |Elements(list)| <= |list|
    ensures |Elements(list)| == |list| <==> NoDuplicates(list)
  {
    if list != [] {
      ElementsSize(list[1..]);
      ElementsStep(list);
      NoDuplicatesStep(list);
    }
  }

  lemma ElementsStep(list: seq<Who>)
    requires list != []
    ensures |Elements(list)| == |Elements(list[1..])| + if list[0] in list[1..] then 0 else 1
  {
    forall w ensures w in list <==> w == list[0] || w in list[1..] { assert list == [list[0]] + list[1..]; }
    assert Elements(list) == Elements(list[1..]) + {list[0]};
    if list[0] in list[1..] { assert Elements(list) == Elements(list[1..]); }
  }

  lemma NoDuplicatesStep(list: seq<Who>)
    requires list != []
    ensures NoDuplicates(list) <==> list[0] !in list[1..] && NoDuplicates(list[1..])
  {
    var rest := list[1..];
    assert forall j :: 0 < j < |list| ==> list[j] == rest[j - 1];
    assert forall j :: 0 <= j < |rest| ==> rest[j] == list[j + 1];
  }

  lemma Missing(a: set<Who>, b: set<Who>) returns (w: Who)
    requires a <= b && a != b
    ensures w in b && w !in a
  {
    assert !(b <= a);
    w :| w in b && w !in a;
  }

  /** A chat is returned exactly when every listed participant is a member of it and the list names
      nobody twice; a list with a duplicate matches nothing. */
  lemma CommonIff(rows: seq<Row>, list: seq<Who>, chat: string)
    requires Unique(rows) && list != []
    ensures chat in Common(rows, list) <==> NoDuplicates(list) && forall w :: w in list ==> Member(rows, chat, w)
  {
    var whos := Elements(list);
    var members := MembersAmong(rows, chat, whos);
    CountMembers(rows, chat, whos);
    ElementsSize(list);
    SubsetSize(members, whos);
    assert chat in Common(rows, list) ==> |members| == |list|;
    if |members| == |list| {
      assert list[0] in whos && list[0] in members;
      assert Row(chat, list[0], false) in rows;
      assert chat in Common(rows, list);
      forall w | w in list ensures Member(rows, chat, w) { assert w in members; }
    } else if NoDuplicates(list) {
      var w := Missing(members, whos);
      assert w in list && !Member(rows, chat, w);
    }
  }
}
