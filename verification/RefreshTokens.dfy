/**
 * The refresh-token table: opaque single-use tokens, consumed by one atomic
 * DELETE ... RETURNING.  A token stands for its own hash (hashing is taken to be injective).
 */
module RefreshTokens {
  import opened Prelude

  const REFRESH_TOKEN_TTL_MS := 604_800_000 // 7 days

  datatype Role = User | Admin

  datatype Row = Row(userId: int, address: string, role: Role, expiresAt: int)

  type Rows = map<string, Row>

  datatype Consumption = Missing | Expired | Accepted(row: Row)

  predicate Matches(rows: Rows, token: string, role: Role) {
    token in rows && rows[token].role == role
  }

  /** What validating a token at time `now` answers. */
  function Validate(rows: Rows, token: string, role: Role, now: int): Consumption {
    if !Matches(rows, token, role) then Missing
    else if now > rows[token].expiresAt then Expired
    else Accepted(rows[token])
  }

  /** The table after one consume statement. */
  function AfterConsume(rows: Rows, token: string, role: Role): Rows {
    if Matches(rows, token, role) then rows - {token} else rows
  }

  /** The row a rotation or a login writes for a fresh token. */
  function NewRow(userId: int, address: string, role: Role, now: int): Row {
    Row(userId, address, role, now + REFRESH_TOKEN_TTL_MS)
  }

  /** The table after the startup sweep of expired rows. */
  function AfterSweep(rows: Rows, now: int): Rows {
    map t | t in rows && !(rows[t].expiresAt < now) :: rows[t]
  }

  /** The `refresh_tokens` table as the repository updates it. */
  class Table {
    var rows: Rows

    constructor ()
      ensures rows == map[]
    {
      rows := map[];
    }

    /** One INSERT; the token hash column is unique, so a taken token is refused. */
    method Create(token: string, row: Row) returns (ok: bool)
      modifies this
      ensures ok == (token !in old(rows))
      ensures rows == if ok then old(rows)[token := row] else old(rows)
    {
      ok := token !in rows;
      if ok {
        rows := rows[token := row];
      }
    }

    /** DELETE ... RETURNING: the caller that removes the row is the only one to see it. */
    method ConsumeByHashAndRole(token: string, role: Role) returns (row: Option<Row>)
      modifies this
      ensures rows == AfterConsume(old(rows), token, role)
      ensures row.Some? <==> token in old(rows) && old(rows)[token].role == role
      ensures row.Some? ==> row.value == old(rows)[token] && rows == old(rows) - {token}
      ensures row.None? ==> rows == old(rows)
    {
      if token in rows && rows[token].role == role {
        row := Some(rows[token]);
        rows := rows - {token};
      } else {
        row := None;
      }
    }

    method ValidateRefreshToken(token: string, role: Role, now: int) returns (c: Consumption)
      modifies this
      ensures c == Validate(old(rows), token, role, now)
      ensures rows == AfterConsume(old(rows), token, role)
      ensures c.Missing? <==> !(token in old(rows) && old(rows)[token].role == role)
      ensures c.Accepted? <==>
                token in old(rows) && old(rows)[token].role == role && now <= old(rows)[token].expiresAt
      ensures c.Accepted? ==> c.row == old(rows)[token]
      ensures rows == if c.Missing? then old(rows) else old(rows) - {token}
    {
      var row := ConsumeByHashAndRole(token, role);
      if row.None? {
        return Missing;
      }
      if now > row.value.expiresAt {
        return Expired;
      }
      return Accepted(row.value);
    }

    /** Consume the presented token and store its successor; a rotation that fails stores nothing. */
    method RotateRefreshToken(token: string, role: Role, successor: string, now: int) returns (ok: bool)
      requires successor !in rows
      modifies this
      ensures ok == Validate(old(rows), token, role, now).Accepted?
      ensures ok ==>
                var row := old(rows)[token];
                rows == (old(rows) - {token})[successor := NewRow(row.userId, row.address, role, now)]
      ensures !ok ==> rows == AfterConsume(old(rows), token, role)
      ensures ok ==>
                && successor in rows && rows[successor].userId == old(rows)[token].userId
                && rows[successor].address == old(rows)[token].address && rows[successor].role == role
                && rows[successor].expiresAt == now + REFRESH_TOKEN_TTL_MS
    {
      var c := ValidateRefreshToken(token, role, now);
      if !c.Accepted? {
        return false;
      }
      var created := Create(successor, NewRow(c.row.userId, c.row.address, role, now));
      return true;
    }

    /** Logging out. */
    method DeleteByHash(token: string)
      modifies this
      ensures rows == Apply(old(rows), Deleted(token)) == old(rows) - {token}
    {
      rows := rows - {token};
    }

    /** The sweep at startup. */
    method CleanExpired(now: int)
      modifies this
      ensures rows == Apply(old(rows), Swept(now))
      ensures forall t :: t in rows <==> t in old(rows) && now <= old(rows)[t].expiresAt
      ensures forall t :: t in rows ==> rows[t] == old(rows)[t]
    {
      rows := map t | t in rows && !(rows[t].expiresAt < now) :: rows[t];
    }
  }

  /** What other requests and the startup sweep do to the table. */
  datatype Change =
    | Created(token: string, row: Row)
    | Consumed(token: string, role: Role)
    | Deleted(token: string)
    | Swept(now: int)

  function Apply(rows: Rows, c: Change): Rows {
    match c
    case Created(token, row) => if token in rows then rows else rows[token := row]
    case Consumed(token, role) => AfterConsume(rows, token, role)
    case Deleted(token) => rows - {token}
    case Swept(now) => AfterSweep(rows, now)
  }

  function After(rows: Rows, cs: seq<Change>): Rows
    decreases |cs|
  {
    if cs == [] then rows else After(Apply(rows, cs[0]), cs[1..])
  }

  /**
   * Once a token is consumed, every later presentation of it finds no row, whatever happens to the table
   * in between, as long as the random token is not drawn again.
   */
  lemma {:induction false} ConsumedOnce(
      rows: Rows, token: string, role: Role, now: int, cs: seq<Change>, laterRole: Role, later: int)
    requires Validate(rows, token, role, now).Accepted?
    requires forall i :: 0 <= i < |cs| ==> !(cs[i].Created? && cs[i].token == token)
    ensures Validate(After(AfterConsume(rows, token, role), cs), token, laterRole, later) == Missing
  {
    GoneStaysGone(AfterConsume(rows, token, role), token, cs);
  }

  lemma {:induction false} GoneStaysGone(rows: Rows, token: string, cs: seq<Change>)
    requires token !in rows
    requires forall i :: 0 <= i < |cs| ==> !(cs[i].Created? && cs[i].token == token)
    ensures token !in After(rows, cs)
    decreases |cs|
  {
    if cs != [] {
      GoneStaysGone(Apply(rows, cs[0]), token, cs[1..]);
    }
  }

  /** Presented in the wrong role, a token is refused and stays usable in its own. */
  lemma WrongRoleLeavesTheToken(rows: Rows, token: string, role: Role, now: int)
    requires token in rows && rows[token].role != role
    ensures Validate(rows, token, role, now) == Missing
    ensures now <= rows[token].expiresAt ==>
              Validate(AfterConsume(rows, token, role), token, rows[token].role, now) == Accepted(rows[token])
  {
  }

  /** A new token is accepted in its role for seven days, the last millisecond included, and in no other. */
  lemma NewTokensLiveSevenDays(
      rows: Rows, token: string, userId: int, address: string, role: Role, now: int, asked: Role, later: int)
    ensures
      var row := NewRow(userId, address, role, now);
      Validate(rows[token := row], token, asked, later) ==
      if asked != role then Missing else if later <= now + 604_800_000 then Accepted(row) else Expired
  {
  }

  /** Consuming one token touches no other row. */
  lemma OthersStay(rows: Rows, token: string, role: Role, other: string)
    requires other in rows && other != token
    ensures other in AfterConsume(rows, token, role) && AfterConsume(rows, token, role)[other] == rows[other]
  {
  }
}
