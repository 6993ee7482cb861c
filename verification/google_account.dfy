/**
 * The google_accounts table as far as the primary flag goes: each user may
 * connect several Google accounts and marks one of them primary.
 */
module GoogleAccounts {

  /** One row: its owner, its address and the primary flag. */
  datatype AccountRow = AccountRow(userId: int, email: string, isPrimary: bool)

  /** The ids of a user's accounts flagged primary. */
  function PrimaryIds(rows: map<int, AccountRow>, userId: int): set<int>
  {
    set id | id in rows && rows[id].userId == userId && rows[id].isPrimary
  }

  /** The bulk update: every other account of the user loses the flag. */
  function OthersUnset(rows: map<int, AccountRow>, userId: int, id: int): (rows': map<int, AccountRow>)
    ensures rows'.Keys == rows.Keys
    ensures forall k :: k in rows && k != id && rows[k].userId == userId ==> rows'[k] == rows[k].(isPrimary := false)
    ensures forall k :: k in rows && (k == id || rows[k].userId != userId) ==> rows'[k] == rows[k]
  {
    map k | k in rows :: if k != id && rows[k].userId == userId then rows[k].(isPrimary := false) else rows[k]
  }

  /**
   * GoogleAccount::makePrimary on account `id`: the account is primary, every
   * other account of its user is not, and accounts of other users and every
   * other column are untouched.
   */
  function MadePrimary(rows: map<int, AccountRow>, id: int): (rows': map<int, AccountRow>)
    requires id in rows
    ensures rows'.Keys == rows.Keys
    ensures rows'[id] == rows[id].(isPrimary := true)
    ensures forall k :: k in rows && k != id && rows[k].userId == rows[id].userId ==> !rows'[k].isPrimary
    ensures forall k :: k in rows && rows[k].userId != rows[id].userId ==> rows'[k] == rows[k]
    ensures forall k :: k in rows ==> rows'[k] == rows[k].(isPrimary := rows'[k].isPrimary)
  {
    var unset := OthersUnset(rows, rows[id].userId, id);
    unset[id := unset[id].(isPrimary := true)]
  }

  /** Afterwards the user has exactly one primary account, the chosen one. */
  lemma ExactlyOnePrimary(rows: map<int, AccountRow>, id: int)
    requires id in rows
    ensures PrimaryIds(MadePrimary(rows, id), rows[id].userId) == {id}
  {
  }

  /** Making the same account primary twice changes nothing the second time. */
  lemma MakePrimaryIdempotent(rows: map<int, AccountRow>, id: int)
    requires id in rows
    ensures MadePrimary(MadePrimary(rows, id), id) == MadePrimary(rows, id)
  {
    var once := MadePrimary(rows, id);
    var twice := MadePrimary(once, id);
    assert forall k :: k in once ==> twice[k] == once[k];
  }

  /** Other users keep their own primary accounts. */
  lemma OtherUsersKeepTheirPrimary(rows: map<int, AccountRow>, id: int, userId: int)
    requires id in rows && userId != rows[id].userId
    ensures PrimaryIds(MadePrimary(rows, id), userId) == PrimaryIds(rows, userId)
  {
  }

  /** `scopePrimary`: exactly the rows flagged primary. */
  function ScopePrimary(rows: map<int, AccountRow>): map<int, AccountRow>
  {
    map k | k in rows && rows[k].isPrimary :: rows[k]
  }

  /** After makePrimary the scope holds exactly one account of that user. */
  lemma ScopeAfterMakePrimary(rows: map<int, AccountRow>, id: int)
    requires id in rows
    ensures var primary := ScopePrimary(MadePrimary(rows, id));
      forall k :: k in primary && primary[k].userId == rows[id].userId <==> k == id
  {
  }

  /** The table, updated in place. */
  class AccountTable {
    var rows: map<int, AccountRow>

    constructor ()
      ensures rows == map[]
    {
      rows := map[];
    }

    /** makePrimary: the bulk update of the user's other accounts, then this row. */
    method MakePrimary(id: int)
      requires id in rows
      modifies this
      ensures rows == MadePrimary(old(rows), id)
    {
      var userId := rows[id].userId;
      rows := OthersUnset(rows, userId, id);
      rows := rows[id := rows[id].(isPrimary := true)];
    }
  }
}
