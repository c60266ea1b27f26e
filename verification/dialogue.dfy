/**
 * The access dialogue a gate terminal holds with the server, as a pure
 * specification: the records the server keeps, the replies it sends (each
 * rendered as its literal line by `Wording`), and what one session sends, how
 * many lines it reads and which ticket, if any, it redeems.
 *
 * A session runs three steps over the lines it receives:
 *   1. identify: `ID_JOUEUR:<id>` names an active player holding a
 *      reservation for match 401;
 *   2. password: up to three `MOT_DE_PASSE:<pwd>` lines, a malformed line
 *      using up an attempt;
 *   3. ticket: `QR_CODE:<code>` goes through an ordered chain of checks.
 * Every way out sends one last line; only full success redeems the ticket.
 */
module Dialogue {
  import opened Text
  import opened Window

  datatype Option<T> = None | Some(value: T)

  /** A player record: the stored password, the account status and the reserved match ids. */
  datatype Player = Player(password: string, status: string, reservations: seq<int>)

  /** A ticket record, keyed by its QR code. */
  datatype Ticket = Ticket(playerId: string, matchId: int, used: bool, active: bool)

  /** A match schedule, in minutes. */
  datatype Match = Match(start: int, end: int)

  type Players = map<string, Player>
  type Tickets = map<string, Ticket>
  type Matches = map<int, Match>

  /** The one match this gate admits to. */
  const TargetMatchId: int := 401
  const ActiveStatus: string := "actif"
  /** Password attempts: `range(1, 4)`. */
  const MaxAttempts: nat := 3

  /** The three keys a terminal's line may start with. */
  datatype Key = PlayerKey | PasswordKey | QrKey

  function Prefix(key: Key): (prefix: string)
    ensures KeyPrefix(prefix)
  {
    match key
    case PlayerKey => "ID_JOUEUR:"
    case PasswordKey => "MOT_DE_PASSE:"
    case QrKey => "QR_CODE:"
  }

  /** Why a presented ticket is refused, in the order the checks run. */
  datatype Refusal = UnknownCode | Inactive | AlreadyUsed | NotOwner | WrongMatch | OutOfWindow

  /** The tail every refusal line ends with. */
  const Denied: string := ", accès refusé"

  /** `s` ends with `tail`. */
  predicate EndsWith(s: string, tail: string)
  {
    |tail| <= |s| && s[|s| - |tail|..] == tail
  }

  lemma EndsWithAppend(head: string, tail: string)
    ensures EndsWith(head + tail, tail)
  {
    assert (head + tail)[|head|..] == tail;
  }

  /** The line sent for each refusal; every one of them tells the terminal that access is refused. */
  function RefusalMessage(reason: Refusal): (m: string)
    ensures |m| > |Denied| && EndsWith(m, Denied)
  {
    match reason
    case UnknownCode => "QR code invalide, accès refusé"
    case Inactive => "QR inactif/annulé, accès refusé"
    case AlreadyUsed => "QR déjà utilisé, accès refusé"
    case NotOwner => "QR non associé à ce joueur, accès refusé"
    case WrongMatch => "QR non valable pour ce match, accès refusé"
    case OutOfWindow => "Hors fenêtre horaire, accès refusé"
  }

  /** The number a text of decimal digits stands for, the last digit being the units. */
  function DigitsValue(t: string): nat
    decreases |t|
  {
    if t == [] then 0
    else
      var d := t[|t| - 1] as int - '0' as int;
      DigitsValue(t[..|t| - 1]) * 10 + (if 0 <= d then d else 0)
  }

  /** A number as Python's `str` writes it: its decimal digits, without a leading zero. */
  function NatText(n: nat): (t: string)
    ensures |t| >= 1 && forall k :: 0 <= k < |t| ==> '0' <= t[k] <= '9'
    ensures DigitsValue(t) == n
    ensures t[0] == '0' ==> n == 0 && |t| == 1
  {
    var digit := ['0' + (n % 10) as char];
    if n < 10 then digit
    else
      var t := NatText(n / 10) + digit;
      assert t[..|t| - 1] == NatText(n / 10);
      t
  }

  /** The replies the server sends, by meaning. */
  datatype Reply =
    | IdFormat | UnknownPlayer | NoReservation | PlayerFound
    | PasswordFormat(attempt: nat) | WrongPassword(attempt: nat) | Blocked
    | PasswordOk | QrFormat | Refused(reason: Refusal) | Granted

  /**
   * What a reply's line is sure to end with: the refusal tail for a refused
   * ticket, the attempt's number out of 2 for a failed password attempt.
   */
  function Tail(reply: Reply): string
  {
    match reply
    case Refused(_) => Denied
    case WrongPassword(attempt) => NatText(attempt) + "/2"
    case PasswordFormat(attempt) => NatText(attempt) + "/2)"
    case _ => ""
  }

  /** The line of each reply that always reads the same. */
  function FixedLine(reply: Reply): string
    requires !reply.Refused? && !reply.WrongPassword? && !reply.PasswordFormat?
  {
    match reply
    case IdFormat => "Format invalide: attendu ID_JOUEUR:<id>"
    case UnknownPlayer => "Joueur introuvable ou inactif"
    case NoReservation => "Aucune réservation active pour ce match"
    case PlayerFound => "Joueur trouvé, veuillez entrer le mot de passe"
    case Blocked => "Compte bloqué après 2 tentatives"
    case PasswordOk => "Mot de passe conforme, veuillez scanner le code QR"
    case QrFormat => "Format invalide: attendu QR_CODE:<code>"
    case Granted => "Accès autorisé, ouverture porte"
  }

  /**
   * The literal line each reply sends. A refusal ends by telling the
   * terminal that access is refused; a failed password attempt ends with the
   * attempt's number out of 2.
   */
  function Wording(reply: Reply): (w: string)
    ensures EndsWith(w, Tail(reply))
  {
    match reply
    case PasswordFormat(attempt) =>
      var head, tail := "Format invalide: attendu MOT_DE_PASSE:<valeur> (essai ", NatText(attempt) + "/2)";
      EndsWithAppend(head, tail);
      head + tail
    case WrongPassword(attempt) =>
      var head, tail := "Mot de passe erroné, tentative ", NatText(attempt) + "/2";
      EndsWithAppend(head, tail);
      head + tail
    case Refused(reason) => RefusalMessage(reason)
    case _ => FixedLine(reply)
  }

  /** The position of a check in the chain. */
  function Rank(reason: Refusal): nat
  {
    match reason
    case UnknownCode => 0
    case Inactive => 1
    case AlreadyUsed => 2
    case NotOwner => 3
    case WrongMatch => 4
    case OutOfWindow => 5
  }

  /**
   * The condition under which each check, taken on its own, refuses code
   * `code` presented by player `playerId` at minute `now`.
   */
  predicate Fails(reason: Refusal, tickets: Tickets, matches: Matches, playerId: string, code: string, now: int)
  {
    match reason
    case UnknownCode => code !in tickets
    case Inactive => code in tickets && !tickets[code].active
    case AlreadyUsed => code in tickets && tickets[code].used
    case NotOwner => code in tickets && tickets[code].playerId != playerId
    case WrongMatch => code in tickets && tickets[code].matchId != TargetMatchId
    case OutOfWindow =>
      code in tickets &&
      var id := tickets[code].matchId;
      id !in matches || !InWindow(now, matches[id].start, matches[id].end)
  }

  /**
   * The ticket checks, short-circuiting: `None` when every check passes,
   * otherwise the first check in the chain that fails.
   */
  function CheckTicket(tickets: Tickets, matches: Matches, playerId: string, code: string, now: int): (v: Option<Refusal>)
    ensures v.Some? ==> Fails(v.value, tickets, matches, playerId, code, now)
    ensures v == None ==> forall reason :: !Fails(reason, tickets, matches, playerId, code, now)
    ensures v.Some? ==> forall earlier :: Rank(earlier) < Rank(v.value) ==> !Fails(earlier, tickets, matches, playerId, code, now)
  {
    if code !in tickets then Some(UnknownCode)
    else
      var ticket := tickets[code];
      if !ticket.active then Some(Inactive)
      else if ticket.used then Some(AlreadyUsed)
      else if ticket.playerId != playerId then Some(NotOwner)
      else if ticket.matchId != TargetMatchId then Some(WrongMatch)
      else if ticket.matchId !in matches || !InWindow(now, matches[ticket.matchId].start, matches[ticket.matchId].end) then Some(OutOfWindow)
      else None
  }

  /** What `read_line` returns for read number `pos`: the received text without its line end, or "" once the stream has ended. */
  function ReadLine(input: seq<string>, pos: nat): (line: string)
    ensures pos >= |input| ==> line == ""
    ensures pos < |input| ==>
      && line <= input[pos]
      && AllIn(input[pos][|line|..], IsLineEnd)
      && (line == [] || !IsLineEnd(line[|line| - 1]))
  {
    if pos < |input| then StripLineEnd(input[pos]) else ""
  }

  /**
   * The value a line carries under a key: `None` when the line is empty or
   * does not start with the key, otherwise the stripped text after the
   * first colon.
   */
  function KeyValue(line: string, prefix: string): (v: Option<string>)
    requires KeyPrefix(prefix)
    ensures v.Some? <==> HasPrefix(line, prefix)
    ensures v.Some? ==> TrimmedBy(v.value, IsSpace) && |v.value| < |line|
  {
    if HasPrefix(line, prefix) then
      ColonOfPrefixed(line, prefix);
      Some(FieldValue(line))
    else None
  }

  /** A line as the dialogue sees it: its value under each of the three keys. */
  datatype Line = Line(id: Option<string>, password: Option<string>, qr: Option<string>)

  /** How the dialogue sees a line `read_line` returned. */
  function LineOf(line: string): (l: Line)
    ensures forall key :: ValueOf(l, key).Some? <==> HasPrefix(line, Prefix(key))
    ensures forall a, b :: a != b && ValueOf(l, a).Some? ==> ValueOf(l, b).None?
    ensures line == "" ==> l == Eof
  {
    OneKeyPerLine(line);
    Line(KeyValue(line, Prefix(PlayerKey)), KeyValue(line, Prefix(PasswordKey)), KeyValue(line, Prefix(QrKey)))
  }

  /** The value of a line under `key`. */
  function ValueOf(l: Line, key: Key): Option<string>
  {
    match key
    case PlayerKey => l.id
    case PasswordKey => l.password
    case QrKey => l.qr
  }

  /** The line that carries `value` under `key` and nothing under the other keys. */
  function Keyed(key: Key, value: string): (l: Line)
    ensures ValueOf(l, key) == Some(value)
    ensures forall other :: other != key ==> ValueOf(l, other) == None
  {
    match key
    case PlayerKey => Line(Some(value), None, None)
    case PasswordKey => Line(None, Some(value), None)
    case QrKey => Line(None, None, Some(value))
  }

  /**
   * A terminal line written as `KEY:value` and ended by line terminators,
   * the newline coming last as in one read, reads back as exactly `value`
   * under that key, and as nothing under the other two, whenever `value` has
   * no surrounding whitespace.
   */
  lemma ReadKeyed(key: Key, value: string, end: string)
    requires TrimmedBy(value, IsSpace) && '\n' !in value && AllIn(end, IsLineEnd) && OneRead(end)
    ensures LineOf(StripLineEnd(Prefix(key) + value + end)) == Keyed(key, value)
  {
    var text := Prefix(key) + value;
    ReadField(Prefix(key), value, end);
    forall other | other != key
      ensures KeyValue(text, Prefix(other)) == None
    {
      PrefixesDiffer(key, other);
      KeyPrefixesExclusive(Prefix(key), Prefix(other), text);
    }
  }

  /** The three keys are told apart by their prefixes. */
  lemma PrefixesDiffer(a: Key, b: Key)
    requires a != b
    ensures Prefix(a) != Prefix(b)
  {
    assert |Prefix(PlayerKey)| == 10 && |Prefix(PasswordKey)| == 13 && |Prefix(QrKey)| == 8;
  }

  /** A line carries at most one of the three keys. */
  lemma OneKeyPerLine(line: string)
    ensures forall a, b :: a != b && HasPrefix(line, Prefix(a)) ==> !HasPrefix(line, Prefix(b))
  {
    forall a, b | a != b && HasPrefix(line, Prefix(a))
      ensures !HasPrefix(line, Prefix(b))
    {
      PrefixesDiffer(a, b);
      KeyPrefixesExclusive(Prefix(a), Prefix(b), line);
    }
  }

  /** Every received line, in order, as the dialogue sees it. */
  function Parse(input: seq<string>): (lines: seq<Line>)
    ensures |lines| == |input|
    decreases |input|
  {
    if input == [] then [] else [LineOf(StripLineEnd(input[0]))] + Parse(input[1..])
  }

  /**
   * `input` can come off a socket one `read_line` at a time: each read stops
   * at its first newline, and only the last, cut short by the end of the
   * stream, may lack one.
   */
  predicate Received(input: seq<string>)
  {
    forall i :: 0 <= i < |input| ==> OneRead(input[i]) && (i < |input| - 1 ==> EndsWith(input[i], "\n"))
  }

  /** `lines` is how the dialogue sees `input`, line by line. */
  predicate Reads(input: seq<string>, lines: seq<Line>)
  {
    |lines| == |input| && forall i {:trigger input[i]} :: 0 <= i < |input| ==> lines[i] == LineOf(StripLineEnd(input[i]))
  }

  /** What an ended stream yields: the empty line, which carries no key. */
  const Eof: Line := Line(None, None, None)

  /** Read number `pos`. */
  function At(lines: seq<Line>, pos: nat): Line
  {
    if pos < |lines| then lines[pos] else Eof
  }

  /** `Parse` is how the dialogue sees the input: every input has a view. */
  lemma {:induction false} ParseReads(input: seq<string>)
    ensures Reads(input, Parse(input))
    decreases |input|
  {
    if input != [] {
      ParseReads(input[1..]);
      var lines := Parse(input);
      assert lines == [LineOf(StripLineEnd(input[0]))] + Parse(input[1..]);
      forall i | 0 <= i < |input|
        ensures lines[i] == LineOf(StripLineEnd(input[i]))
      {
        if i > 0 {
          assert input[i] == input[1..][i - 1];
        }
      }
    }
  }

  /** Read number `pos` of a view is what `read_line` returns for it, past the end of the stream included. */
  lemma LineAt(input: seq<string>, lines: seq<Line>, pos: nat)
    requires Reads(input, lines)
    ensures At(lines, pos) == LineOf(ReadLine(input, pos))
  {
    if pos < |input| {
      assert lines[pos] == LineOf(StripLineEnd(input[pos]));
    } else {
      assert !HasPrefix("", Prefix(PlayerKey)) && !HasPrefix("", Prefix(PasswordKey)) && !HasPrefix("", Prefix(QrKey));
    }
  }

  /** Read number `pos` is a well-formed password line carrying `password`. */
  predicate CorrectAt(lines: seq<Line>, pos: nat, password: string)
  {
    At(lines, pos).password == Some(password)
  }

  /** The password step: whether it succeeded, what it sent and the next read position. */
  datatype PasswordRound = PasswordRound(ok: bool, sent: seq<Reply>, next: nat)

  /** The reply to failed attempt number `attempt`, whose line carried `value` under the password key. */
  function FailureReply(value: Option<string>, attempt: nat): (r: Reply)
    ensures r.PasswordFormat? <==> value.None?
    ensures r.WrongPassword? <==> value.Some? && attempt < MaxAttempts
    ensures r == Blocked <==> value.Some? && attempt >= MaxAttempts
    ensures r.PasswordFormat? || r.WrongPassword? ==> r.attempt == attempt
  {
    if value.None? then PasswordFormat(attempt)
    else if attempt < MaxAttempts then WrongPassword(attempt)
    else Blocked
  }

  /**
   * The password attempts from number `attempt` on, reading from position
   * `pos`: a malformed or wrong line sends one reply and uses up the
   * attempt; a correct one ends the step without a reply.
   */
  function PasswordFrom(lines: seq<Line>, pos: nat, attempt: nat, password: string): (r: PasswordRound)
    requires 1 <= attempt <= MaxAttempts + 1
    ensures pos <= r.next <= pos + (MaxAttempts + 1 - attempt)
    ensures !r.ok ==> r.next == pos + (MaxAttempts + 1 - attempt)
    ensures r.ok ==> pos < r.next
    ensures |r.sent| == r.next - pos - (if r.ok then 1 else 0)
    decreases MaxAttempts + 1 - attempt
  {
    if attempt > MaxAttempts then PasswordRound(false, [], pos)
    else if CorrectAt(lines, pos, password) then PasswordRound(true, [], pos + 1)
    else
      var rest := PasswordFrom(lines, pos + 1, attempt + 1, password);
      rest.(sent := [FailureReply(At(lines, pos).password, attempt)] + rest.sent)
  }

  /**
   * A failed attempt answers with `FailureReply` and hands over to the next
   * attempt on the next line: replies already sent before it are followed by
   * that reply and then by whatever the later attempts send.
   */
  lemma FailedAttempt(lines: seq<Line>, pos: nat, attempt: nat, password: string, done: seq<Reply>)
    requires 1 <= attempt <= MaxAttempts && !CorrectAt(lines, pos, password)
    ensures var rest := PasswordFrom(lines, pos, attempt, password);
      var after := PasswordFrom(lines, pos + 1, attempt + 1, password);
      && (done + [FailureReply(At(lines, pos).password, attempt)]) + after.sent == done + rest.sent
      && after.ok == rest.ok && after.next == rest.next
  {
    var after := PasswordFrom(lines, pos + 1, attempt + 1, password);
    assert (done + [FailureReply(At(lines, pos).password, attempt)]) + after.sent
      == done + ([FailureReply(At(lines, pos).password, attempt)] + after.sent);
  }

  /** How the steps before the ticket checks end. */
  datatype Presentation =
    | Stopped(sent: seq<Reply>, consumed: nat)
    | Presented(playerId: string, code: string, sent: seq<Reply>, consumed: nat)

  /**
   * Identification, password and reading the QR line. Reaching the ticket
   * checks takes an active player with a reservation for match 401 and a
   * correct password; the ticket store plays no part in this.
   */
  function Prelude(players: Players, lines: seq<Line>): (p: Presentation)
    ensures 1 <= p.consumed <= MaxAttempts + 2
    ensures |p.sent| >= 1
    ensures p.Presented? ==>
      && p.playerId in players
      && players[p.playerId].status == ActiveStatus
      && TargetMatchId in players[p.playerId].reservations
      && p.sent[|p.sent| - 1] == PasswordOk
      && exists i :: 1 <= i <= MaxAttempts && CorrectAt(lines, i, players[p.playerId].password)
    ensures p.Presented? ==>
      && At(lines, 0).id == Some(p.playerId)
      && At(lines, p.consumed - 1).qr == Some(p.code)
  {
    match At(lines, 0).id
    case None => Stopped([IdFormat], 1)
    case Some(id) =>
      if id !in players || players[id].status != ActiveStatus then Stopped([UnknownPlayer], 1)
      else if TargetMatchId !in players[id].reservations then Stopped([NoReservation], 1)
      else
        var round := PasswordFrom(lines, 1, 1, players[id].password);
        var sent := [PlayerFound] + round.sent;
        if !round.ok then Stopped(sent, round.next)
        else
          var sent' := sent + [PasswordOk];
          match At(lines, round.next).qr
          case None => Stopped(sent' + [QrFormat], round.next + 1)
          case Some(code) => Presented(id, code, sent', round.next + 1)
  }

  /** The outcome of one session: the replies sent, the number of lines read and the code redeemed, if any. */
  datatype Outcome = Outcome(sent: seq<Reply>, consumed: nat, redeemed: Option<string>)

  /**
   * One whole session against the current ticket store. A session sends at
   * least one line, reads at most five, and redeems a code only when it
   * ends with the grant line, and then only an existing, active, unused one.
   */
  function Session(players: Players, tickets: Tickets, matches: Matches, lines: seq<Line>, now: int): (o: Outcome)
    ensures |o.sent| >= 1 && 1 <= o.consumed <= MaxAttempts + 2
    ensures o.redeemed.Some? ==> o.sent[|o.sent| - 1] == Granted
    ensures o.redeemed.Some? ==>
      o.redeemed.value in tickets && tickets[o.redeemed.value].active && !tickets[o.redeemed.value].used
  {
    match Prelude(players, lines)
    case Stopped(sent, consumed) => Outcome(sent, consumed, None)
    case Presented(id, code, sent, consumed) =>
      match CheckTicket(tickets, matches, id, code, now)
      case None => Outcome(sent + [Granted], consumed, Some(code))
      case Some(reason) => Outcome(sent + [Refused(reason)], consumed, None)
  }

  /** `ticket["used"] = True`: that ticket alone changes, and only its `used` flag. */
  function Redeem(tickets: Tickets, code: string): (after: Tickets)
    requires code in tickets
    ensures after.Keys == tickets.Keys
    ensures after[code] == tickets[code].(used := true)
    ensures forall c :: c in tickets && c != code ==> after[c] == tickets[c]
  {
    tickets[code := tickets[code].(used := true)]
  }

  /** The ticket store after a session that redeemed `redeemed`. */
  function Commit(tickets: Tickets, redeemed: Option<string>): (after: Tickets)
    ensures after.Keys == tickets.Keys
    ensures redeemed.None? || redeemed.value !in tickets ==> after == tickets
    ensures redeemed.Some? && redeemed.value in tickets ==> after[redeemed.value].used
    ensures forall c :: c in tickets ==> after[c] == tickets[c].(used := after[c].used)
    ensures forall c :: c in tickets && Some(c) != redeemed ==> after[c] == tickets[c]
  {
    match redeemed
    case None => tickets
    case Some(code) => if code in tickets then Redeem(tickets, code) else tickets
  }

  // The server's built-in records; times are minutes after midnight.

  function FixturePlayers(): Players
  {
    map["158" := Player("1234", "actif", [401]), "200" := Player("0000", "actif", [])]
  }

  function FixtureMatches(): Matches
  {
    map[401 := Match(22 * 60 + 30, 19 * 60)]
  }

  function FixtureTickets(): Tickets
  {
    map["ABC123XYZ" := Ticket("158", 401, false, true), "ZED900AAA" := Ticket("158", 401, true, true)]
  }
}
