/**
 * Turns of a conversation: a user message with everything up to the next user message.
 * One turn is found from any of its messages, and is deleted as a whole.
 */
module Turns {
  import opened Base

  /** The roles a message can have; only the exact role name "user" opens a turn. */
  datatype Role = User | OtherRole(name: string)

  datatype Message = Message(id: ID, role: Role, content: string)

  /** One row of the message table; rows are kept in creation order. */
  datatype Row = Row(conversationID: ID, message: Message)

  datatype Trace = Trace(input: Option<string>, output: Option<string>)

  datatype DeleteError = MessageNotFound | CountMismatch

  datatype Deletion = Deleted(rows: seq<Row>, ids: seq<ID>) | Refused(error: DeleteError)

  predicate IsUser(m: Message) {
    m.role.User?
  }

  // ---------------------------------------------------------------- specification

  function IndexOfID(msgs: seq<Message>, id: ID): (i: int)
    ensures -1 <= i < |msgs|
  {
    if msgs == [] then -1
    else if msgs[0].id == id then 0
    else
      var i := IndexOfID(msgs[1..], id);
      if i < 0 then -1 else i + 1
  }

  /** The user message at or before `i`, or the start of the list. */
  function StartOf(msgs: seq<Message>, i: nat): (start: nat)
    requires i < |msgs|
    ensures start <= i
  {
    if i == 0 || IsUser(msgs[i]) then i else StartOf(msgs, i - 1)
  }

  /** The first user message at or after `i`, or the end of the list. */
  function NextUser(msgs: seq<Message>, i: nat): (end: nat)
    requires i <= |msgs|
    ensures i <= end <= |msgs|
    decreases |msgs| - i
  {
    if i == |msgs| || IsUser(msgs[i]) then i else NextUser(msgs, i + 1)
  }

  function TurnRange(msgs: seq<Message>, anchorID: ID): (r: Option<(nat, nat)>)
    ensures r.Some? ==> r.value.0 < r.value.1 <= |msgs|
  {
    var i := IndexOfID(msgs, anchorID);
    if i < 0 then None
    else
      var start := StartOf(msgs, i);
      Some((start, NextUser(msgs, start + 1)))
  }

  /** The messages of one conversation. */
  function Messages(rows: seq<Row>, conversationID: ID): seq<Message> {
    if rows == [] then []
    else
      var n := |rows| - 1;
      Messages(rows[..n], conversationID) + if rows[n].conversationID == conversationID then [rows[n].message] else []
  }

  function IDs(msgs: seq<Message>): (ids: seq<ID>)
    ensures |ids| == |msgs|
    ensures forall i | 0 <= i < |msgs| :: ids[i] == msgs[i].id
  {
    seq(|msgs|, i requires 0 <= i < |msgs| => msgs[i].id)
  }

  function WithoutIDs(rows: seq<Row>, conversationID: ID, ids: seq<ID>): (r: seq<Row>)
    ensures |r| <= |rows|
  {
    if rows == [] then []
    else
      var n := |rows| - 1;
      WithoutIDs(rows[..n], conversationID, ids)
      + if rows[n].conversationID == conversationID && rows[n].message.id in ids then [] else [rows[n]]
  }

  /** Deletes the rows of a range of a conversation's messages; their number must come out right. */
  function DeleteRange(rows: seq<Row>, conversationID: ID, start: nat, end: nat): Deletion
    requires start <= end <= |Messages(rows, conversationID)|
  {
    var ids := IDs(Messages(rows, conversationID)[start..end]);
    var left := WithoutIDs(rows, conversationID, ids);
    if |rows| - |left| == |ids| then Deleted(left, ids) else Refused(CountMismatch)
  }

  function DeleteTurn(rows: seq<Row>, conversationID: ID, anchorID: ID): Deletion {
    match TurnRange(Messages(rows, conversationID), anchorID)
    case None => Refused(MessageNotFound)
    case Some((start, end)) => DeleteRange(rows, conversationID, start, end)
  }

  // ---------------------------------------------------------------- the operations

  method TurnSliceRange(msgs: seq<Message>, anchorID: ID) returns (found: bool, start: nat, end: nat)
    ensures TurnRange(msgs, anchorID) == if found then Some((start, end)) else None
    ensures found ==> start < end <= |msgs|
  {
    var idx := -1;
    for i := 0 to |msgs|
      invariant idx == -1
      invariant forall j | 0 <= j < i :: msgs[j].id != anchorID
    {
      if msgs[i].id == anchorID {
        idx := i;
        break;
      }
    }
    IndexIs(msgs, anchorID, idx);
    if idx < 0 {
      return false, 0, 0;
    }
    start := idx;
    while start > 0 && !IsUser(msgs[start])
      invariant start <= idx && StartOf(msgs, start) == StartOf(msgs, idx)
    {
      start := start - 1;
    }
    if !IsUser(msgs[start]) {
      start := 0;
    }
    end := |msgs|;
    for i := start + 1 to |msgs|
      invariant end == |msgs| && NextUser(msgs, i) == NextUser(msgs, start + 1)
    {
      if IsUser(msgs[i]) {
        end := i;
        break;
      }
    }
    found := true;
  }

  class MessageStore {
    var rows: seq<Row>
    var traces: map<ID, Trace>

    method GetMessages(conversationID: ID) returns (msgs: seq<Message>)
      ensures msgs == Messages(rows, conversationID)
    {
      msgs := [];
      for n := 0 to |rows|
        invariant msgs == Messages(rows[..n], conversationID)
      {
        assert rows[..n + 1][..n] == rows[..n];
        if rows[n].conversationID == conversationID {
          msgs := msgs + [rows[n].message];
        }
      }
      assert rows[..|rows|] == rows;
    }

    method CollectIDs(msgs: seq<Message>, start: nat, end: nat) returns (ids: seq<ID>)
      requires start <= end <= |msgs|
      ensures ids == IDs(msgs[start..end])
    {
      ids := [];
      for i := start to end
        invariant ids == IDs(msgs[start..end])[..i - start]
      {
        ids := ids + [msgs[i].id];
      }
      assert ids == IDs(msgs[start..end]);
    }

    method RowsWithout(conversationID: ID, ids: seq<ID>) returns (left: seq<Row>)
      ensures left == WithoutIDs(rows, conversationID, ids)
    {
      left := [];
      for n := 0 to |rows|
        invariant left == WithoutIDs(rows[..n], conversationID, ids)
      {
        assert rows[..n + 1][..n] == rows[..n];
        if !(rows[n].conversationID == conversationID && rows[n].message.id in ids) {
          left := left + [rows[n]];
        }
      }
      assert rows[..|rows|] == rows;
    }

    /** Deletes the turn of the anchor and forgets the conversation's trace, or changes nothing. */
    method DeleteConversationTurn(conversationID: ID, anchorID: ID) returns (r: Deletion)
      modifies this
      ensures r == DeleteTurn(old(rows), conversationID, anchorID)
      ensures r.Refused? ==> rows == old(rows) && traces == old(traces)
      ensures r.Deleted? ==>
                && rows == r.rows
                && traces == if conversationID in old(traces) then old(traces)[conversationID := Trace(None, None)]
                             else old(traces)
    {
      var msgs := GetMessages(conversationID);
      var found, start, end := TurnSliceRange(msgs, anchorID);
      if !found {
        return Refused(MessageNotFound);
      }
      var deletedIDs := CollectIDs(msgs, start, end);
      var left := RowsWithout(conversationID, deletedIDs);
      if |rows| - |left| != |deletedIDs| {
        return Refused(CountMismatch);
      }
      rows := left;
      if conversationID in traces {
        traces := traces[conversationID := Trace(None, None)];
      }
      r := Deleted(left, deletedIDs);
    }
  }

  // ---------------------------------------------------------------- turns, told independently

  /** The list cut before every user message but the first message. */
  function Split(msgs: seq<Message>): seq<seq<Message>> {
    if msgs == [] then []
    else
      var end := NextUser(msgs, 1);
      [msgs[..end]] + Split(msgs[end..])
  }

  function Concat(turns: seq<seq<Message>>): seq<Message> {
    if turns == [] then [] else turns[0] + Concat(turns[1..])
  }

  /** A turn has a user message only at its start; every turn after the first starts with one. */
  ghost predicate WellCut(turns: seq<seq<Message>>) {
    forall k | 0 <= k < |turns| ::
      && turns[k] != []
      && (k > 0 ==> IsUser(turns[k][0]))
      && forall j | 0 < j < |turns[k]| :: !IsUser(turns[k][j])
  }

  /** Splitting loses nothing. */
  lemma {:induction false} ConcatSplit(msgs: seq<Message>)
    ensures Concat(Split(msgs)) == msgs
    decreases |msgs|
  {
    if msgs != [] {
      var end := NextUser(msgs, 1);
      ConcatSplit(msgs[end..]);
      assert ([msgs[..end]] + Split(msgs[end..]))[1..] == Split(msgs[end..]);
    }
  }

  lemma {:induction false} SplitIsWellCut(msgs: seq<Message>)
    ensures WellCut(Split(msgs))
    ensures msgs != [] ==> Split(msgs) != [] && Split(msgs)[0][0] == msgs[0]
    decreases |msgs|
  {
    if msgs != [] {
      var end := NextUser(msgs, 1);
      NextUserIsNext(msgs, 1);
      SplitIsWellCut(msgs[end..]);
    }
  }

  // ---------------------------------------------------------------- main results

  ghost predicate UniqueIDs(msgs: seq<Message>) {
    forall i, j | 0 <= i < j < |msgs| :: msgs[i].id != msgs[j].id
  }

  lemma {:induction false} IndexIs(msgs: seq<Message>, id: ID, i: int)
    requires -1 <= i < |msgs| && (i >= 0 ==> msgs[i].id == id)
    requires forall j | 0 <= j < (if i < 0 then |msgs| else i) :: msgs[j].id != id
    ensures IndexOfID(msgs, id) == i
  {
    if msgs != [] && i != 0 {
      IndexIs(msgs[1..], id, if i < 0 then i else i - 1);
    }
  }

  lemma {:induction false} StartOpensTurn(msgs: seq<Message>, i: nat)
    requires i < |msgs|
    ensures StartOf(msgs, i) == 0 || IsUser(msgs[StartOf(msgs, i)])
    ensures forall j | StartOf(msgs, i) < j <= i :: !IsUser(msgs[j])
  {
    if i > 0 && !IsUser(msgs[i]) {
      StartOpensTurn(msgs, i - 1);
    }
  }

  lemma {:induction false} NextUserIsNext(msgs: seq<Message>, i: nat)
    requires i <= |msgs|
    ensures NextUser(msgs, i) == |msgs| || IsUser(msgs[NextUser(msgs, i)])
    ensures forall j | i <= j < NextUser(msgs, i) :: !IsUser(msgs[j])
    decreases |msgs| - i
  {
    if i < |msgs| && !IsUser(msgs[i]) {
      NextUserIsNext(msgs, i + 1);
    }
  }

  lemma {:induction false} NextUserUnique(msgs: seq<Message>, i: nat, end: nat)
    requires i <= end <= |msgs|
    requires end == |msgs| || IsUser(msgs[end])
    requires forall j | i <= j < end :: !IsUser(msgs[j])
    ensures NextUser(msgs, i) == end
    decreases |msgs| - i
  {
    if i < end {
      NextUserUnique(msgs, i + 1, end);
    }
  }

  /** The start is the only message up to `i` that begins a turn `i` can belong to. */
  lemma {:induction false} StartIs(msgs: seq<Message>, i: nat, start: nat)
    requires start <= i < |msgs|
    requires start == 0 || IsUser(msgs[start])
    requires forall j | start < j <= i :: !IsUser(msgs[j])
    ensures StartOf(msgs, i) == start
  {
    if start < i {
      StartIs(msgs, i - 1, start);
    }
  }

  /** Every message in the range of a message has the same range; only its start can be a user message. */
  lemma RangeOfMember(msgs: seq<Message>, i: nat, j: nat)
    requires i < |msgs| && StartOf(msgs, i) <= j < NextUser(msgs, StartOf(msgs, i) + 1)
    ensures StartOf(msgs, j) == StartOf(msgs, i)
    ensures IsUser(msgs[j]) ==> j == StartOf(msgs, i)
  {
    StartOpensTurn(msgs, i);
    NextUserIsNext(msgs, StartOf(msgs, i) + 1);
    StartIs(msgs, j, StartOf(msgs, i));
  }

  lemma UniqueIndex(msgs: seq<Message>, i: nat)
    requires UniqueIDs(msgs) && i < |msgs|
    ensures IndexOfID(msgs, msgs[i].id) == i
  {
    IndexIs(msgs, msgs[i].id, i);
  }

  lemma StartBeforeEnd(msgs: seq<Message>, i: nat)
    requires i < |msgs|
    ensures StartOf(msgs, i) <= i < NextUser(msgs, StartOf(msgs, i) + 1)
  {
    StartOpensTurn(msgs, i);
    NextUserIsNext(msgs, StartOf(msgs, i) + 1);
  }

  /** A message's own range holds it. */
  lemma RangeHoldsAnchor(msgs: seq<Message>, i: nat)
    requires UniqueIDs(msgs) && i < |msgs|
    ensures TurnRange(msgs, msgs[i].id) == Some((StartOf(msgs, i), NextUser(msgs, StartOf(msgs, i) + 1)))
    ensures StartOf(msgs, i) <= i < NextUser(msgs, StartOf(msgs, i) + 1)
  {
    hide UniqueIDs, IndexOfID, StartOf, NextUser;
    StartBeforeEnd(msgs, i);
    UniqueIndex(msgs, i);
  }

  /** The turns of any two messages are the same or share no message. */
  lemma SameOrDisjoint(msgs: seq<Message>, i: nat, j: nat)
    requires UniqueIDs(msgs) && i < |msgs| && j < |msgs|
    ensures var a, b := TurnRange(msgs, msgs[i].id), TurnRange(msgs, msgs[j].id);
            a.Some? && b.Some? && (a == b || a.value.1 <= b.value.0 || b.value.1 <= a.value.0)
  {
    hide UniqueIDs, TurnRange, StartOf, NextUser;
    RangeHoldsAnchor(msgs, i);
    RangeHoldsAnchor(msgs, j);
    var s, t := StartOf(msgs, i), StartOf(msgs, j);
    StartOpensTurn(msgs, i);
    StartOpensTurn(msgs, j);
    if s <= t < NextUser(msgs, s + 1) {
      RangeOfMember(msgs, i, t);
      StartIs(msgs, t, t);
    } else if t < s {
      StartIs(msgs, s, s);
      if s < NextUser(msgs, t + 1) {
        NextUserIsNext(msgs, t + 1);
        StartIs(msgs, s, t);
      }
    }
  }

  /** Where turn `k` starts in the list. */
  function Offset(turns: seq<seq<Message>>, k: nat): nat
    requires k <= |turns|
  {
    if k == 0 then 0 else |turns[0]| + Offset(turns[1..], k - 1)
  }

  /** `rest` is what follows the first `end` messages, and starts with a user message if there is any. */
  ghost predicate Behind(msgs: seq<Message>, end: nat, rest: seq<Message>) {
    && end <= |msgs|
    && msgs[end..] == rest
    && (rest != [] ==> IsUser(rest[0]))
  }

  /** Starts after the first turn are those of the list behind it. */
  lemma StartShift(msgs: seq<Message>, end: nat, rest: seq<Message>, i: nat)
    requires i < |rest| && Behind(msgs, end, rest)
    ensures end + i < |msgs| && StartOf(msgs, end + i) == end + StartOf(rest, i)
  {
    hide StartOf, IsUser;
    StartOpensTurn(rest, i);
    assert forall j | end <= j < |msgs| :: msgs[j] == rest[j - end];
    StartIs(msgs, end + i, end + StartOf(rest, i));
  }

  /** Ends after the first turn are those of the list behind it. */
  lemma NextShift(msgs: seq<Message>, end: nat, rest: seq<Message>, i: nat)
    requires i <= |rest| && Behind(msgs, end, rest)
    ensures end + i <= |msgs| && NextUser(msgs, end + i) == end + NextUser(rest, i)
  {
    hide NextUser, IsUser;
    NextUserIsNext(rest, i);
    assert forall j | end <= j < |msgs| :: msgs[j] == rest[j - end];
    NextUserUnique(msgs, end + i, end + NextUser(rest, i));
  }

  lemma ConcatCons(turn: seq<Message>, turns: seq<seq<Message>>)
    ensures Concat([turn] + turns) == turn + Concat(turns)
  {
    assert ([turn] + turns)[1..] == turns;
  }

  /** Turn `k` lies between the turns before it and the turns behind it. */
  lemma {:induction false} ConcatAround(turns: seq<seq<Message>>, k: nat)
    requires k < |turns|
    ensures Concat(turns) == Concat(turns[..k]) + turns[k] + Concat(turns[k + 1..])
    ensures |Concat(turns[..k])| == Offset(turns, k)
  {
    if k == 0 {
      assert turns[..0] == [];
    } else {
      ConcatAround(turns[1..], k - 1);
      assert turns[..k] == [turns[0]] + turns[1..][..k - 1];
      ConcatCons(turns[0], turns[1..][..k - 1]);
      assert turns[k + 1..] == turns[1..][k..];
    }
  }

  /** The first of several turns ends where the next user message is. */
  lemma FirstEnd(turns: seq<seq<Message>>)
    requires WellCut(turns) && turns != []
    ensures NextUser(Concat(turns), 1) == |turns[0]|
    ensures Behind(Concat(turns), |turns[0]|, Concat(turns[1..]))
  {
    var first, msgs, rest := turns[0], Concat(turns), Concat(turns[1..]);
    assert msgs == first + rest;
    assert forall j | 0 < j < |first| :: msgs[j] == first[j];
    if |turns| > 1 {
      assert rest == turns[1] + Concat(turns[1..][1..]);
      assert msgs[|first|] == rest[0] == turns[1][0];
    }
    NextUserUnique(msgs, 1, |first|);
  }

  /** Any well-cut list of turns is the split of its concatenation: boundaries are determined. */
  lemma {:induction false} WellCutIsSplit(turns: seq<seq<Message>>)
    requires WellCut(turns)
    ensures Split(Concat(turns)) == turns
  {
    if turns != [] {
      FirstEnd(turns);
      WellCutIsSplit(turns[1..]);
      assert Concat(turns)[..|turns[0]|] == turns[0];
      assert turns == [turns[0]] + turns[1..];
    }
  }

  /** Message `i` lies in turn `k`, and its range is that turn. */
  ghost predicate RangeIs(turns: seq<seq<Message>>, msgs: seq<Message>, i: nat, k: nat)
    requires i < |msgs|
  {
    && k < |turns|
    && StartOf(msgs, i) == Offset(turns, k)
    && NextUser(msgs, StartOf(msgs, i) + 1) == Offset(turns, k) + |turns[k]|
  }

  lemma InFirstTurn(turns: seq<seq<Message>>, i: nat)
    requires WellCut(turns) && turns != [] && i < |turns[0]| && i < |Concat(turns)|
    ensures RangeIs(turns, Concat(turns), i, 0)
  {
    FirstEnd(turns);
    NextUserIsNext(Concat(turns), 1);
    StartIs(Concat(turns), i, 0);
  }

  lemma TurnBehind(turns: seq<seq<Message>>, k: nat)
    requires k + 1 < |turns|
    ensures turns[k + 1] == turns[1..][k]
    ensures Offset(turns, k + 1) == |turns[0]| + Offset(turns[1..], k)
  {
  }

  lemma InLaterTurn(turns: seq<seq<Message>>, i: nat, k: nat)
    requires WellCut(turns) && turns != []
    requires i < |Concat(turns[1..])| && RangeIs(turns[1..], Concat(turns[1..]), i, k)
    ensures |turns[0]| + i < |Concat(turns)| && RangeIs(turns, Concat(turns), |turns[0]| + i, k + 1)
  {
    hide Concat, WellCut, Behind, StartOf, NextUser, Offset;
    TurnBehind(turns, k);
    FirstEnd(turns);
    StartShift(Concat(turns), |turns[0]|, Concat(turns[1..]), i);
    NextShift(Concat(turns), |turns[0]|, Concat(turns[1..]), StartOf(Concat(turns[1..]), i) + 1);
  }

  lemma {:induction false} RangeInTurns(turns: seq<seq<Message>>, i: nat) returns (k: nat)
    requires WellCut(turns) && i < |Concat(turns)|
    ensures RangeIs(turns, Concat(turns), i, k)
  {
    if i < |turns[0]| {
      k := 0;
      InFirstTurn(turns, i);
    } else {
      k := RangeInTurns(turns[1..], i - |turns[0]|);
      InLaterTurn(turns, i - |turns[0]|, k);
      k := k + 1;
    }
  }

  /** The range of a message is one turn of the split. */
  lemma RangeIsTurn(msgs: seq<Message>, i: nat) returns (k: nat)
    requires i < |msgs|
    ensures RangeIs(Split(msgs), msgs, i, k)
  {
    SplitIsWellCut(msgs);
    ConcatSplit(msgs);
    k := RangeInTurns(Split(msgs), i);
  }

  function Filter(msgs: seq<Message>, ids: seq<ID>): seq<Message> {
    if msgs == [] then []
    else
      var n := |msgs| - 1;
      Filter(msgs[..n], ids) + if msgs[n].id in ids then [] else [msgs[n]]
  }

  lemma {:induction false} MessagesAfterDelete(rows: seq<Row>, conversationID: ID, ids: seq<ID>, other: ID)
    ensures Messages(WithoutIDs(rows, conversationID, ids), other)
            == if other == conversationID then Filter(Messages(rows, other), ids) else Messages(rows, other)
  {
    if rows != [] {
      var n := |rows| - 1;
      MessagesAfterDelete(rows[..n], conversationID, ids, other);
      var left, msgs := WithoutIDs(rows[..n], conversationID, ids), Messages(rows[..n], other);
      assert (left + [rows[n]])[..|left|] == left;
      assert (msgs + [rows[n].message])[..|msgs|] == msgs;
      assert left + [] == left && msgs + [] == msgs && Filter(msgs, ids) + [] == Filter(msgs, ids);
    }
  }

  lemma {:induction false} DeletedCount(rows: seq<Row>, conversationID: ID, ids: seq<ID>)
    ensures |rows| - |WithoutIDs(rows, conversationID, ids)|
            == |Messages(rows, conversationID)| - |Filter(Messages(rows, conversationID), ids)|
  {
    if rows != [] {
      var n := |rows| - 1;
      DeletedCount(rows[..n], conversationID, ids);
      var msgs := Messages(rows[..n], conversationID);
      assert (msgs + [rows[n].message])[..|msgs|] == msgs;
      assert msgs + [] == msgs;
    }
  }

  /** The IDs are those of msgs[start..end] and of no other message. */
  ghost predicate Selects(msgs: seq<Message>, ids: seq<ID>, start: nat, end: nat) {
    forall j | 0 <= j < |msgs| :: msgs[j].id in ids <==> start <= j < end
  }

  lemma SliceSelects(msgs: seq<Message>, start: nat, end: nat)
    requires UniqueIDs(msgs) && start <= end <= |msgs|
    ensures Selects(msgs, IDs(msgs[start..end]), start, end)
  {
    var ids := IDs(msgs[start..end]);
    forall j | 0 <= j < |msgs| ensures msgs[j].id in ids <==> start <= j < end {
      if start <= j < end {
        assert ids[j - start] == msgs[j].id;
      }
      if msgs[j].id in ids {
        var k :| 0 <= k < |ids| && ids[k] == msgs[j].id;
        assert msgs[start + k].id == msgs[j].id;
      }
    }
  }

  lemma {:induction false} FilterConcat(a: seq<Message>, b: seq<Message>, ids: seq<ID>)
    ensures Filter(a + b, ids) == Filter(a, ids) + Filter(b, ids)
  {
    if b == [] {
      assert a + b == a;
    } else {
      var n := |b| - 1;
      FilterConcat(a, b[..n], ids);
      assert (a + b)[..|a| + n] == a + b[..n];
      var last := if b[n].id in ids then [] else [b[n]];
      assert Filter(a, ids) + Filter(b[..n], ids) + last == Filter(a, ids) + (Filter(b[..n], ids) + last);
    }
  }

  lemma {:induction false} FilterAll(msgs: seq<Message>, ids: seq<ID>)
    requires forall m | m in msgs :: m.id in ids
    ensures Filter(msgs, ids) == []
  {
    if msgs != [] {
      var init, last := msgs[..|msgs| - 1], msgs[|msgs| - 1];
      assert last in msgs;
      assert forall m | m in init :: m in msgs;
      FilterAll(init, ids);
    }
  }

  lemma {:induction false} FilterNothing(msgs: seq<Message>, ids: seq<ID>)
    requires forall m | m in msgs :: m.id !in ids
    ensures Filter(msgs, ids) == msgs
  {
    if msgs != [] {
      var init, last := msgs[..|msgs| - 1], msgs[|msgs| - 1];
      assert last in msgs;
      FilterNothing(init, ids);
      assert Filter(msgs, ids) == init + [last];
      assert msgs == init + [last];
    }
  }

  lemma SelectsParts(msgs: seq<Message>, ids: seq<ID>, start: nat, end: nat)
    requires start <= end <= |msgs| && Selects(msgs, ids, start, end)
    ensures forall m | m in msgs[start..end] :: m.id in ids
    ensures forall m | m in msgs[..start] :: m.id !in ids
    ensures forall m | m in msgs[end..] :: m.id !in ids
  {
    forall m | m in msgs[..start] ensures m.id !in ids {
      var j :| 0 <= j < start && msgs[j] == m;
    }
    forall m | m in msgs[start..end] ensures m.id in ids {
      var j :| start <= j < end && msgs[j] == m;
    }
    forall m | m in msgs[end..] ensures m.id !in ids {
      var j :| end <= j < |msgs| && msgs[j] == m;
    }
  }

  /** Filtering out the IDs of a slice takes out that slice. */
  lemma FilterOutside(msgs: seq<Message>, ids: seq<ID>, start: nat, end: nat)
    requires start <= end <= |msgs| && Selects(msgs, ids, start, end)
    ensures Filter(msgs, ids) == msgs[..start] + msgs[end..]
  {
    SelectsParts(msgs, ids, start, end);
    FilterParts(msgs[..start], msgs[start..end], msgs[end..], ids);
    assert msgs == msgs[..start] + msgs[start..end] + msgs[end..];
  }

  lemma FilterParts(a: seq<Message>, b: seq<Message>, c: seq<Message>, ids: seq<ID>)
    requires forall m | m in a :: m.id !in ids
    requires forall m | m in b :: m.id in ids
    requires forall m | m in c :: m.id !in ids
    ensures Filter(a + b + c, ids) == a + c
  {
    FilterConcat(a + b, c, ids);
    FilterConcat(a, b, ids);
    FilterNothing(a, ids);
    FilterAll(b, ids);
    FilterNothing(c, ids);
    assert a + [] == a;
  }

  lemma Associate(a: seq<Message>, b: seq<Message>, c: seq<Message>)
    ensures a + (b + c) == a + b + c
  {
  }

  lemma {:induction false} ConcatAppend(a: seq<seq<Message>>, b: seq<seq<Message>>)
    ensures Concat(a + b) == Concat(a) + Concat(b)
  {
    if a == [] {
      assert a + b == b;
    } else {
      ConcatAppend(a[1..], b);
      ConcatCons(a[0], a[1..] + b);
      hide Concat;
      assert a + b == [a[0]] + (a[1..] + b);
      assert Concat(a) == a[0] + Concat(a[1..]) by {
        ConcatCons(a[0], a[1..]);
        assert a == [a[0]] + a[1..];
      }
      Associate(a[0], Concat(a[1..]), Concat(b));
    }
  }

  /** The slice of a turn and the slices around it. */
  lemma SlicesAround(turns: seq<seq<Message>>, k: nat)
    requires k < |turns|
    ensures var msgs, start := Concat(turns), Offset(turns, k);
            && start + |turns[k]| <= |msgs|
            && msgs[..start] == Concat(turns[..k])
            && msgs[start..start + |turns[k]|] == turns[k]
            && msgs[start + |turns[k]|..] == Concat(turns[k + 1..])
  {
    ConcatAround(turns, k);
    SliceOfConcat(Concat(turns[..k]), turns[k], Concat(turns[k + 1..]));
  }

  /** The range of an anchor is one turn of the split, and holds the anchor. */
  lemma LocateTurn(msgs: seq<Message>, i: nat) returns (k: nat)
    requires UniqueIDs(msgs) && i < |msgs|
    ensures k < |Split(msgs)|
    ensures var start := Offset(Split(msgs), k);
            && TurnRange(msgs, msgs[i].id) == Some((start, start + |Split(msgs)[k]|))
            && start <= i < start + |Split(msgs)[k]|
  {
    hide UniqueIDs, TurnRange, StartOf, NextUser, Split, Offset;
    k := RangeIsTurn(msgs, i);
    RangeHoldsAnchor(msgs, i);
  }

  /** Deleting turn `k` succeeds, takes out that turn and leaves everything else. */
  lemma DeleteOneTurn(rows: seq<Row>, conversationID: ID, k: nat)
    requires UniqueIDs(Messages(rows, conversationID)) && k < |Split(Messages(rows, conversationID))|
    ensures var msgs := Messages(rows, conversationID);
            var turns := Split(msgs);
            && Offset(turns, k) + |turns[k]| <= |msgs|
            && var r := DeleteRange(rows, conversationID, Offset(turns, k), Offset(turns, k) + |turns[k]|);
            && r.Deleted? && r.ids == IDs(turns[k])
            && Split(Messages(r.rows, conversationID)) == turns[..k] + turns[k + 1..]
            && forall other | other != conversationID :: Messages(r.rows, other) == Messages(rows, other)
  {
    hide UniqueIDs, Messages, DeleteRange, Split, Concat, Offset, IDs;
    var msgs := Messages(rows, conversationID);
    ConcatSplit(msgs);
    SlicesAround(Split(msgs), k);
    DeleteSlice(rows, conversationID, Offset(Split(msgs), k), Offset(Split(msgs), k) + |Split(msgs)[k]|);
    SplitWithout(msgs, k);
  }

  /**
   * Deleting the turn of any stored message succeeds, takes exactly that turn out of the split and leaves
   * all other turns, with their boundaries, and all other conversations as they were.
   */
  lemma DeleteRemovesOneTurn(rows: seq<Row>, conversationID: ID, i: nat) returns (k: nat)
    requires UniqueIDs(Messages(rows, conversationID)) && i < |Messages(rows, conversationID)|
    ensures var msgs := Messages(rows, conversationID);
            var turns := Split(msgs);
            var r := DeleteTurn(rows, conversationID, msgs[i].id);
            && k < |turns| && Offset(turns, k) <= i < Offset(turns, k) + |turns[k]|
            && r.Deleted? && r.ids == IDs(turns[k])
            && Split(Messages(r.rows, conversationID)) == turns[..k] + turns[k + 1..]
            && forall other | other != conversationID :: Messages(r.rows, other) == Messages(rows, other)
  {
    hide UniqueIDs, Messages, DeleteRange, TurnRange, Split, Offset, IDs;
    k := LocateTurn(Messages(rows, conversationID), i);
    DeleteOneTurn(rows, conversationID, k);
  }

  lemma SliceOfConcat(a: seq<Message>, b: seq<Message>, c: seq<Message>)
    ensures var msgs := a + b + c;
            msgs[..|a|] == a && msgs[|a|..|a| + |b|] == b && msgs[|a| + |b|..] == c
  {
  }

  /** Deleting a range removes that slice from its conversation and nothing else. */
  lemma DeleteSlice(rows: seq<Row>, conversationID: ID, start: nat, end: nat)
    requires UniqueIDs(Messages(rows, conversationID)) && start <= end <= |Messages(rows, conversationID)|
    ensures var msgs := Messages(rows, conversationID);
            var r := DeleteRange(rows, conversationID, start, end);
            && r.Deleted? && r.ids == IDs(msgs[start..end])
            && Messages(r.rows, conversationID) == msgs[..start] + msgs[end..]
            && forall other | other != conversationID :: Messages(r.rows, other) == Messages(rows, other)
  {
    var msgs := Messages(rows, conversationID);
    var ids := IDs(msgs[start..end]);
    SliceSelects(msgs, start, end);
    FilterOutside(msgs, ids, start, end);
    DeletedCount(rows, conversationID, ids);
    MessagesAfterDelete(rows, conversationID, ids, conversationID);
    forall other | other != conversationID
      ensures Messages(WithoutIDs(rows, conversationID, ids), other) == Messages(rows, other)
    {
      MessagesAfterDelete(rows, conversationID, ids, other);
    }
  }

  lemma CutWithout(turns: seq<seq<Message>>, k: nat)
    requires k < |turns| && WellCut(turns)
    ensures WellCut(turns[..k] + turns[k + 1..])
  {
    var left := turns[..k] + turns[k + 1..];
    assert forall j | 0 <= j < |left| :: left[j] == turns[if j < k then j else j + 1];
  }

  /** Taking one turn out of a split leaves a list that is cut as before. */
  lemma SplitWithout(msgs: seq<Message>, k: nat)
    requires k < |Split(msgs)|
    ensures var turns := Split(msgs);
            Split(Concat(turns[..k]) + Concat(turns[k + 1..])) == turns[..k] + turns[k + 1..]
  {
    SplitIsWellCut(msgs);
    CutWithout(Split(msgs), k);
    ConcatAppend(Split(msgs)[..k], Split(msgs)[k + 1..]);
    WellCutIsSplit(Split(msgs)[..k] + Split(msgs)[k + 1..]);
  }

  /** An anchor that names no message of the conversation changes nothing; any other deletes its turn. */
  lemma DeleteRefusedIff(rows: seq<Row>, conversationID: ID, anchorID: ID)
    requires UniqueIDs(Messages(rows, conversationID))
    ensures DeleteTurn(rows, conversationID, anchorID).Refused? <==> anchorID !in IDs(Messages(rows, conversationID))
  {
    var msgs := Messages(rows, conversationID);
    if i :| 0 <= i < |msgs| && IDs(msgs)[i] == anchorID {
      var _ := DeleteRemovesOneTurn(rows, conversationID, i);
    } else {
      assert forall j | 0 <= j < |msgs| :: IDs(msgs)[j] == msgs[j].id;
      IndexIs(msgs, anchorID, -1);
    }
  }
}
