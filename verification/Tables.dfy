/** The rows of the store and what every SQL statement or transaction does to them.
    Times are Unix seconds; the current second is always an argument. */
module Tables {

  datatype Option<+T> = None | Some(value: T)

  /** The longest a claim hides a row from the other workers: one minute. */
  const LEASE_SECONDS := 60

  /** How long a canonical action suppresses an identical repost: four hours. */
  const WINDOW_SECONDS := 14400

  datatype Operation = Text | CopyMedia | Reply

  /** A planned response. The entities of a text travel with the text. */
  datatype Payload = Payload(op: Operation, text: string, replyTo: int, fallback: string)

  /** What a media response becomes once Telegram refuses the copy for good. */
  function FallbackOf(p: Payload): Payload {
    p.(op := Text, text := p.fallback)
  }

  datatype Phase = Planned | DeleteRequested | SendPending | Complete | Dead

  predicate Finished(p: Phase) {
    p == Complete || p == Dead
  }

  function Order(p: Phase): nat {
    match p
    case Planned => 0
    case DeleteRequested => 1
    case SendPending => 2
    case Complete => 3
    case Dead => 3
  }

  /** One row of moderation_outbox; it is keyed by its canonical action id. */
  datatype Row = Row(chat: int, thread: int, source: int, payload: Payload, phase: Phase, attempts: nat,
                     nextAt: int, response: int, leaseUntil: int, token: Option<nat>)

  datatype ResponseState = Pending | Sent | DeadLetter

  /** The columns of the UNIQUE constraint on canonical_actions. */
  datatype Key = Key(chat: int, thread: int, user: int, rule: string, version: string, fingerprint: string)

  /** One row of canonical_actions. */
  datatype Canon = Canon(key: Key, payload: Payload, state: ResponseState, response: int, active: bool, createdAt: int)

  /** The two tables; lastId is the AUTOINCREMENT counter. */
  datatype Tables = Tables(canon: map<nat, Canon>, outbox: map<nat, Row>, lastId: nat)

  const EMPTY := Tables(map[], map[], 0)

  // Outbox statements

  /** Every UPDATE of one outbox row, as a value. */
  datatype Write =
    | Nothing
    | ReplacePayload(payload: Payload)
    | MarkCopied(copied: int)
    | MarkDeleteRequested(backoff: int)
    | MarkSendPending
    | MarkError(phase: Phase, delay: int)
    | MarkDead
    | MarkComplete(response: int)
    | ReleaseLease

  function RowAfter(r: Row, w: Write, now: int): Row {
    match w
    case Nothing => r
    case ReplacePayload(p) => r.(payload := p)
    case MarkCopied(id) => r.(phase := DeleteRequested, response := id, nextAt := now)
    case MarkDeleteRequested(d) => r.(phase := DeleteRequested, attempts := r.attempts + 1, nextAt := now + d)
    case MarkSendPending => r.(phase := SendPending, nextAt := now)
    case MarkError(p, d) =>
      r.(phase := p, attempts := r.attempts + 1, nextAt := now + d, leaseUntil := 0, token := None)
    case MarkDead => r.(phase := Dead, attempts := r.attempts + 1, nextAt := now, leaseUntil := 0)
    case MarkComplete(id) => r.(phase := Complete, response := id, leaseUntil := 0)
    case ReleaseLease => r.(leaseUntil := 0, token := None)
  }

  function CanonAfter(c: Canon, w: Write): Canon {
    match w
    case MarkDead => c.(state := DeadLetter)
    case MarkComplete(id) => c.(state := Sent, response := id)
    case _ => c
  }

  /** The transaction behind one write; an unknown id updates no row. */
  function Written(t: Tables, a: nat, w: Write, now: int): Tables {
    t.(outbox := if a in t.outbox then t.outbox[a := RowAfter(t.outbox[a], w, now)] else t.outbox,
       canon := if a in t.canon then t.canon[a := CanonAfter(t.canon[a], w)] else t.canon)
  }

  /** Only an ending touches canonical_actions. */
  lemma WrittenRowOnly(t: Tables, a: nat, w: Write, now: int)
    requires !w.MarkDead? && !w.MarkComplete?
    ensures Written(t, a, w, now)
            == t.(outbox := if a in t.outbox then t.outbox[a := RowAfter(t.outbox[a], w, now)] else t.outbox)
  {
    assert Written(t, a, w, now).canon == t.canon;
  }

  lemma WrittenNothing(t: Tables, a: nat, now: int)
    ensures Written(t, a, Nothing, now) == t
  {
    assert Written(t, a, Nothing, now).outbox == t.outbox && Written(t, a, Nothing, now).canon == t.canon;
  }

  lemma WrittenKeys(t: Tables, a: nat, w: Write, now: int)
    ensures Written(t, a, w, now).outbox.Keys == t.outbox.Keys
  {}

  function PowerOfTwo(n: nat): (p: nat)
    ensures p >= 1
  {
    if n == 0 then 1 else 2 * PowerOfTwo(n - 1)
  }

  /** time.Second << min(attempts, 10), in seconds. */
  function Backoff(attempts: nat): (d: int)
    ensures d == PowerOfTwo(if attempts < 10 then attempts else 10)
    ensures 1 <= d <= 1024
  {
    PowersOfTwo();
    [1, 2, 4, 8, 16, 32, 64, 128, 256, 512, 1024][if attempts < 10 then attempts else 10]
  }

  lemma PowersOfTwo()
    ensures forall k: nat | k <= 10 :: PowerOfTwo(k) == [1, 2, 4, 8, 16, 32, 64, 128, 256, 512, 1024][k]
  {
    assert PowerOfTwo(1) == 2 && PowerOfTwo(2) == 4 && PowerOfTwo(3) == 8 && PowerOfTwo(4) == 16;
    assert PowerOfTwo(5) == 32 && PowerOfTwo(6) == 64 && PowerOfTwo(7) == 128;
    assert PowerOfTwo(8) == 256 && PowerOfTwo(9) == 512 && PowerOfTwo(10) == 1024;
  }

  // Claiming

  predicate Claimable(r: Row, now: int) {
    !Finished(r.phase) && r.nextAt <= now && r.leaseUntil <= now
  }

  function Leased(r: Row, token: nat, now: int): Row {
    r.(leaseUntil := now + LEASE_SECONDS, token := Some(token))
  }

  /** The UPDATE that claims every claimable row. */
  function Claimed(t: Tables, token: nat, now: int): Tables {
    t.(outbox := map a | a in t.outbox ::
                   if Claimable(t.outbox[a], now) then Leased(t.outbox[a], token, now) else t.outbox[a])
  }

  /** The ids the SELECT after it returns. */
  function Selected(t: Tables, token: nat): set<nat> {
    set a | a in t.outbox && t.outbox[a].token == Some(token) && !Finished(t.outbox[a].phase)
  }

  /** With a fresh token the claim returns exactly the unfinished rows that are due and unleased. */
  lemma FreshClaimReturnsDue(t: Tables, token: nat, now: int)
    requires FreshToken(t, token)
    ensures Selected(Claimed(t, token, now), token) == set a | a in t.outbox && Claimable(t.outbox[a], now)
  {}

  predicate FreshToken(t: Tables, token: nat) {
    forall a | a in t.outbox :: t.outbox[a].token != Some(token)
  }
}
