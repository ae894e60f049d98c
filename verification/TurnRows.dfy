/** Deleting a turn, told by the rows of the message table alone. */
module TurnRows {
  import opened Base
  import opened Turns

  predicate OfConversation(rows: seq<Row>, conversationID: ID, j: int) {
    0 <= j < |rows| && rows[j].conversationID == conversationID
  }

  /** No user message of the conversation stands behind row `from` up to row `to`. */
  ghost predicate NoUserBehind(rows: seq<Row>, conversationID: ID, from: nat, to: nat) {
    forall k | from < k <= to && OfConversation(rows, conversationID, k) :: rows[k].message.role != User
  }

  /** Rows `a` and `j` of the conversation are of one turn: no user message comes between them or is the later one. */
  ghost predicate SameTurn(rows: seq<Row>, conversationID: ID, a: nat, j: nat) {
    && OfConversation(rows, conversationID, j)
    && if j <= a then NoUserBehind(rows, conversationID, j, a) else NoUserBehind(rows, conversationID, a, j)
  }

  ghost function TurnOf(rows: seq<Row>, conversationID: ID, a: nat): set<nat> {
    set j: nat | j < |rows| && SameTurn(rows, conversationID, a, j)
  }

  /** The first `n` rows, but for some. */
  function Without(rows: seq<Row>, gone: set<nat>, n: nat): seq<Row>
    requires n <= |rows|
  {
    if n == 0 then [] else Without(rows, gone, n - 1) + if n - 1 in gone then [] else [rows[n - 1]]
  }

  // ---------------------------------------------------------------- rows and messages

  /** How many messages of the conversation come before row `j`. */
  function At(rows: seq<Row>, conversationID: ID, j: nat): nat
    requires j <= |rows|
  {
    |Messages(rows[..j], conversationID)|
  }

  lemma {:induction false} RowAt(rows: seq<Row>, conversationID: ID, j: nat)
    requires OfConversation(rows, conversationID, j)
    ensures At(rows, conversationID, j) < |Messages(rows, conversationID)|
    ensures Messages(rows, conversationID)[At(rows, conversationID, j)] == rows[j].message
  {
    var n := |rows| - 1;
    if j < n {
      RowAt(rows[..n], conversationID, j);
      assert rows[..n][..j] == rows[..j];
    }
  }

  lemma {:induction false} RowsInOrder(rows: seq<Row>, conversationID: ID, j: nat, k: nat)
    requires j <= k <= |rows|
    ensures At(rows, conversationID, j) <= At(rows, conversationID, k)
    ensures j < k && OfConversation(rows, conversationID, j)
            ==> At(rows, conversationID, j) < At(rows, conversationID, k)
  {
    if j < k {
      RowsInOrder(rows, conversationID, j, k - 1);
      assert rows[..k][..k - 1] == rows[..k - 1];
    }
  }

  /** Every message has its row. */
  lemma {:induction false} RowOf(rows: seq<Row>, conversationID: ID, i: nat) returns (j: nat)
    requires i < |Messages(rows, conversationID)|
    ensures OfConversation(rows, conversationID, j) && At(rows, conversationID, j) == i
  {
    var n := |rows| - 1;
    if i < |Messages(rows[..n], conversationID)| {
      j := RowOf(rows[..n], conversationID, i);
      assert rows[..n][..j] == rows[..j];
    } else {
      j := n;
    }
  }

  lemma OrderIs(rows: seq<Row>, conversationID: ID, j: nat, k: nat)
    requires OfConversation(rows, conversationID, j) && OfConversation(rows, conversationID, k)
    ensures At(rows, conversationID, j) < At(rows, conversationID, k) <==> j < k
  {
    hide At;
    if j <= k {
      RowsInOrder(rows, conversationID, j, k);
    } else {
      RowsInOrder(rows, conversationID, k, j);
    }
  }

  /** Between two rows there is no user message exactly if there is none between their messages. */
  lemma BetweenRows(rows: seq<Row>, conversationID: ID, from: nat, to: nat)
    requires OfConversation(rows, conversationID, from) && OfConversation(rows, conversationID, to) && from <= to
    ensures var msgs := Messages(rows, conversationID);
            var i, j := At(rows, conversationID, from), At(rows, conversationID, to);
            && i <= j < |msgs|
            && (NoUserBehind(rows, conversationID, from, to) <==> forall m | i < m <= j :: !IsUser(msgs[m]))
  {
    hide At, Messages;
    var msgs := Messages(rows, conversationID);
    var i, j := At(rows, conversationID, from), At(rows, conversationID, to);
    OrderIs(rows, conversationID, to, from);
    RowAt(rows, conversationID, to);
    forall k | from < k <= to && OfConversation(rows, conversationID, k)
      ensures i < At(rows, conversationID, k) <= j && msgs[At(rows, conversationID, k)] == rows[k].message
    {
      RowAt(rows, conversationID, k);
      OrderIs(rows, conversationID, from, k);
      OrderIs(rows, conversationID, to, k);
    }
    forall m | i < m <= j && NoUserBehind(rows, conversationID, from, to) ensures !IsUser(msgs[m]) {
      var k := RowOf(rows, conversationID, m);
      OrderIs(rows, conversationID, from, k);
      OrderIs(rows, conversationID, to, k);
    }
  }

  // ---------------------------------------------------------------- the turn

  lemma RangeBounds(msgs: seq<Message>, a: nat, i: nat)
    requires a < |msgs| && i < |msgs|
    ensures var start := StartOf(msgs, a);
            start <= i < NextUser(msgs, start + 1)
            <==> if i <= a then forall m | i < m <= a :: !IsUser(msgs[m]) else forall m | a < m <= i :: !IsUser(msgs[m])
  {
    StartOpensTurn(msgs, a);
    NextUserIsNext(msgs, StartOf(msgs, a) + 1);
    StartBeforeEnd(msgs, a);
  }

  /** A row is in the range of the anchor's messages exactly if it is of the anchor's turn. */
  lemma RowInRange(rows: seq<Row>, conversationID: ID, a: nat, j: nat)
    requires OfConversation(rows, conversationID, a) && OfConversation(rows, conversationID, j)
    ensures var msgs, p := Messages(rows, conversationID), At(rows, conversationID, a);
            && p < |msgs|
            && var start := StartOf(msgs, p);
               start <= At(rows, conversationID, j) < NextUser(msgs, start + 1)
               <==> SameTurn(rows, conversationID, a, j)
  {
    RowAt(rows, conversationID, a);
    RowAt(rows, conversationID, j);
    OrderIs(rows, conversationID, j, a);
    OrderIs(rows, conversationID, a, j);
    hide At, Messages, NoUserBehind, StartOf, NextUser;
    RangeBounds(Messages(rows, conversationID), At(rows, conversationID, a), At(rows, conversationID, j));
    if j <= a {
      BetweenRows(rows, conversationID, j, a);
    } else {
      BetweenRows(rows, conversationID, a, j);
    }
  }

  lemma {:induction false} LeftRows(rows: seq<Row>, conversationID: ID, ids: seq<ID>, gone: set<nat>, n: nat)
    requires n <= |rows|
    requires forall j: nat | j < n ::
               j in gone <==> rows[j].conversationID == conversationID && rows[j].message.id in ids
    ensures WithoutIDs(rows[..n], conversationID, ids) == Without(rows, gone, n)
  {
    if n > 0 {
      LeftRows(rows, conversationID, ids, gone, n - 1);
      assert rows[..n][..n - 1] == rows[..n - 1];
    }
  }

  /** The range of an anchor names the rows of its turn. */
  lemma IDsOfTurn(rows: seq<Row>, conversationID: ID, a: nat, j: nat)
    requires UniqueIDs(Messages(rows, conversationID))
    requires OfConversation(rows, conversationID, a) && OfConversation(rows, conversationID, j)
    ensures var msgs := Messages(rows, conversationID);
            var range := TurnRange(msgs, rows[a].message.id);
            && range.Some?
            && (rows[j].message.id in IDs(msgs[range.value.0..range.value.1])
                <==> SameTurn(rows, conversationID, a, j))
  {
    hide Messages, At, SameTurn, UniqueIDs, TurnRange, StartOf, NextUser, IDs;
    RowAt(rows, conversationID, a);
    RowAt(rows, conversationID, j);
    RowInRange(rows, conversationID, a, j);
    RangeSelects(Messages(rows, conversationID), At(rows, conversationID, a), At(rows, conversationID, j));
  }

  lemma RangeSelects(msgs: seq<Message>, i: nat, m: nat)
    requires UniqueIDs(msgs) && i < |msgs| && m < |msgs|
    ensures var range := TurnRange(msgs, msgs[i].id);
            && range.Some?
            && (msgs[m].id in IDs(msgs[range.value.0..range.value.1])
                <==> StartOf(msgs, i) <= m < NextUser(msgs, StartOf(msgs, i) + 1))
  {
    hide UniqueIDs, TurnRange, StartOf, NextUser, IDs;
    RangeHoldsAnchor(msgs, i);
    var range := TurnRange(msgs, msgs[i].id).value;
    SliceSelects(msgs, range.0, range.1);
  }

  lemma StoredTurnDeleted(rows: seq<Row>, conversationID: ID, a: nat)
    requires UniqueIDs(Messages(rows, conversationID)) && OfConversation(rows, conversationID, a)
    ensures var r, gone := DeleteTurn(rows, conversationID, rows[a].message.id), TurnOf(rows, conversationID, a);
            && a in gone && r.Deleted? && r.rows == Without(rows, gone, |rows|)
            && forall j | OfConversation(rows, conversationID, j) :: rows[j].message.id in r.ids <==> j in gone
  {
    var msgs, gone := Messages(rows, conversationID), TurnOf(rows, conversationID, a);
    assert SameTurn(rows, conversationID, a, a);
    IDsOfTurn(rows, conversationID, a, a);
    var range := TurnRange(msgs, rows[a].message.id).value;
    var ids := IDs(msgs[range.0..range.1]);
    hide Messages, SameTurn, UniqueIDs, TurnRange, WithoutIDs, IDs, Without;
    DeleteSlice(rows, conversationID, range.0, range.1);
    forall j: nat | OfConversation(rows, conversationID, j) ensures rows[j].message.id in ids <==> j in gone {
      IDsOfTurn(rows, conversationID, a, j);
    }
    forall j: nat | j in gone ensures OfConversation(rows, conversationID, j) {
      TurnMember(rows, conversationID, a, j);
    }
    LeftRows(rows, conversationID, ids, gone, |rows|);
    assert rows[..|rows|] == rows;
  }

  lemma TurnMember(rows: seq<Row>, conversationID: ID, a: nat, j: nat)
    requires SameTurn(rows, conversationID, a, j)
    ensures OfConversation(rows, conversationID, j)
  {
  }

  lemma NotStored(rows: seq<Row>, conversationID: ID, anchorID: ID)
    requires UniqueIDs(Messages(rows, conversationID))
    requires forall a | OfConversation(rows, conversationID, a) :: rows[a].message.id != anchorID
    ensures DeleteTurn(rows, conversationID, anchorID) == Refused(MessageNotFound)
  {
    var msgs := Messages(rows, conversationID);
    forall i | 0 <= i < |msgs| ensures msgs[i].id != anchorID {
      var j := RowOf(rows, conversationID, i);
      RowAt(rows, conversationID, j);
    }
    IndexIs(msgs, anchorID, -1);
  }

  /** Message IDs are different, as the primary key of the table keeps them. */
  ghost predicate IDsDiffer(rows: seq<Row>, conversationID: ID) {
    forall j, k | j < k && OfConversation(rows, conversationID, j) && OfConversation(rows, conversationID, k) ::
      rows[j].message.id != rows[k].message.id
  }

  lemma UniqueMessages(rows: seq<Row>, conversationID: ID)
    requires IDsDiffer(rows, conversationID)
    ensures UniqueIDs(Messages(rows, conversationID))
  {
    hide Messages, At;
    var msgs := Messages(rows, conversationID);
    forall i: nat, m: nat | i < m < |msgs| ensures msgs[i].id != msgs[m].id {
      var j := RowOf(rows, conversationID, i);
      var k := RowOf(rows, conversationID, m);
      RowAt(rows, conversationID, j);
      RowAt(rows, conversationID, k);
      OrderIs(rows, conversationID, j, k);
    }
  }

  /**
   * Deleting the turn of a stored message takes the rows of its turn and no other row; a message that is not stored in
   * the conversation is refused.
   */
  lemma DeletionTold(rows: seq<Row>, conversationID: ID, anchorID: ID)
    requires IDsDiffer(rows, conversationID)
    ensures forall a: nat | OfConversation(rows, conversationID, a) && rows[a].message.id == anchorID ::
              var r, gone := DeleteTurn(rows, conversationID, anchorID), TurnOf(rows, conversationID, a);
              && a in gone && r.Deleted? && r.rows == Without(rows, gone, |rows|)
              && forall j | OfConversation(rows, conversationID, j) :: rows[j].message.id in r.ids <==> j in gone
    ensures (forall a | OfConversation(rows, conversationID, a) :: rows[a].message.id != anchorID)
            ==> DeleteTurn(rows, conversationID, anchorID) == Refused(MessageNotFound)
  {
    UniqueMessages(rows, conversationID);
    hide UniqueIDs;
    forall a: nat | OfConversation(rows, conversationID, a) && rows[a].message.id == anchorID
      ensures var r, gone := DeleteTurn(rows, conversationID, anchorID), TurnOf(rows, conversationID, a);
              && a in gone && r.Deleted? && r.rows == Without(rows, gone, |rows|)
              && forall j | OfConversation(rows, conversationID, j) :: rows[j].message.id in r.ids <==> j in gone
    {
      StoredTurnDeleted(rows, conversationID, a);
    }
    if forall a | OfConversation(rows, conversationID, a) :: rows[a].message.id != anchorID {
      NotStored(rows, conversationID, anchorID);
    }
  }
}
