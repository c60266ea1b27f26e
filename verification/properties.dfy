/**
 * What a session promises, stated over the pure dialogue: how the
 * identification step refuses, how many lines the password step reads and
 * what it answers, the order of the ticket checks, what a session does to
 * the ticket store, and that a ticket is redeemed at most once however many
 * sessions run one after another.
 */
module Properties {
  import opened Window
  import opened Dialogue

  /** The identification step lets the player named on the first line go on to the password prompt. */
  predicate Identified(players: Players, lines: seq<Line>)
  {
    var id := At(lines, 0).id;
    id.Some? && id.value in players && players[id.value].status == ActiveStatus &&
    TargetMatchId in players[id.value].reservations
  }

  // ----- Identification -----

  /**
   * A session refused at identification reads one line, sends one line and
   * redeems nothing; the line tells which of the three refusals it was. A
   * session that gets past identification reads more than one line.
   */
  lemma IdentifyRefusals(players: Players, tickets: Tickets, matches: Matches, lines: seq<Line>, now: int)
    ensures var o := Session(players, tickets, matches, lines, now);
      && (o.consumed == 1 <==> !Identified(players, lines))
      && (At(lines, 0).id.None? ==> o == Outcome([IdFormat], 1, None))
      && (var id := At(lines, 0).id;
          id.Some? && (id.value !in players || players[id.value].status != ActiveStatus) ==>
          o == Outcome([UnknownPlayer], 1, None))
      && (var id := At(lines, 0).id;
          id.Some? && id.value in players && players[id.value].status == ActiveStatus &&
          TargetMatchId !in players[id.value].reservations ==>
          o == Outcome([NoReservation], 1, None))
      && (Identified(players, lines) ==> o.sent[0] == PlayerFound)
  {
    var id := At(lines, 0).id;
    if Identified(players, lines) {
      var round := PasswordFrom(lines, 1, 1, players[id.value].password);
      assert round.next >= 2;
    }
  }

  // ----- Password -----

  /**
   * The password step stops at the first correct line: every line it
   * answered was not correct, and when it succeeds the last line it read was.
   */
  lemma {:induction false} PasswordStopsAtFirstCorrect(lines: seq<Line>, pos: nat, attempt: nat, password: string)
    requires 1 <= attempt <= MaxAttempts + 1
    ensures var r := PasswordFrom(lines, pos, attempt, password);
      && (r.ok ==> r.next == pos + |r.sent| + 1 && CorrectAt(lines, pos + |r.sent|, password))
      && (forall i :: pos <= i < pos + |r.sent| ==> !CorrectAt(lines, i, password))
    decreases MaxAttempts + 1 - attempt
  {
    if attempt <= MaxAttempts && !CorrectAt(lines, pos, password) {
      PasswordStopsAtFirstCorrect(lines, pos + 1, attempt + 1, password);
    }
  }

  /**
   * The password step succeeds exactly when one of the lines it may read
   * (three from the first attempt) carries the password.
   */
  lemma PasswordOkIff(lines: seq<Line>, pos: nat, attempt: nat, password: string)
    requires 1 <= attempt <= MaxAttempts + 1
    ensures PasswordFrom(lines, pos, attempt, password).ok <==>
      exists i :: pos <= i < pos + (MaxAttempts + 1 - attempt) && CorrectAt(lines, i, password)
  {
    var r := PasswordFrom(lines, pos, attempt, password);
    PasswordStopsAtFirstCorrect(lines, pos, attempt, password);
    if r.ok {
      assert CorrectAt(lines, pos + |r.sent|, password);
    }
  }

  /**
   * Each failed attempt gets exactly one reply, in order: reply `k` answers
   * attempt `attempt + k` with the format message for a line without the
   * password key, the wrong-password message on attempts 1 and 2, and the
   * blocked message on attempt 3.
   */
  lemma {:induction false} PasswordReply(lines: seq<Line>, pos: nat, attempt: nat, password: string, k: nat)
    requires 1 <= attempt <= MaxAttempts + 1
    requires k < |PasswordFrom(lines, pos, attempt, password).sent|
    ensures attempt + k <= MaxAttempts
    ensures PasswordFrom(lines, pos, attempt, password).sent[k] == FailureReply(At(lines, pos + k).password, attempt + k)
    decreases k
  {
    var r := PasswordFrom(lines, pos, attempt, password);
    var rest := PasswordFrom(lines, pos + 1, attempt + 1, password);
    assert r.sent == [FailureReply(At(lines, pos).password, attempt)] + rest.sent;
    if k > 0 {
      PasswordReply(lines, pos + 1, attempt + 1, password, k - 1);
      assert r.sent[k] == rest.sent[k - 1];
    }
  }

  /**
   * A correct password on attempt 1, 2 or 3 moves on to the QR prompt
   * after reading 1, 2 or 3 password lines.
   */
  lemma CorrectOnAttempt(players: Players, tickets: Tickets, matches: Matches, lines: seq<Line>, now: int, k: nat)
    requires Identified(players, lines)
    requires 1 <= k <= MaxAttempts
    requires CorrectAt(lines, k, players[At(lines, 0).id.value].password)
    requires forall i :: 1 <= i < k ==> !CorrectAt(lines, i, players[At(lines, 0).id.value].password)
    ensures var o := Session(players, tickets, matches, lines, now);
      o.consumed == k + 2 && |o.sent| == k + 2 && o.sent[k] == PasswordOk
  {
    PasswordStopsAtFirstCorrect(lines, 1, 1, players[At(lines, 0).id.value].password);
  }

  /**
   * A correct password followed by a QR line that is empty, missing or not
   * keyed `QR_CODE:` ends the session with the QR format reply, redeeming
   * nothing.
   */
  lemma MalformedQrStops(players: Players, tickets: Tickets, matches: Matches, lines: seq<Line>, now: int, k: nat)
    requires Identified(players, lines)
    requires 1 <= k <= MaxAttempts
    requires CorrectAt(lines, k, players[At(lines, 0).id.value].password)
    requires forall i :: 1 <= i < k ==> !CorrectAt(lines, i, players[At(lines, 0).id.value].password)
    requires At(lines, k + 1).qr.None?
    ensures var o := Session(players, tickets, matches, lines, now);
      && o.consumed == k + 2 && |o.sent| == k + 2
      && o.sent[k] == PasswordOk && o.sent[k + 1] == QrFormat
      && o.redeemed.None?
  {
    PasswordStopsAtFirstCorrect(lines, 1, 1, players[At(lines, 0).id.value].password);
  }

  /**
   * Three well-formed wrong passwords end the session after four reads,
   * without a QR prompt: two "tentative n/2" replies, then the blocked line.
   */
  lemma ThreeWrongPasswordsBlock(players: Players, tickets: Tickets, matches: Matches, lines: seq<Line>, now: int)
    requires Identified(players, lines)
    requires forall i :: 1 <= i <= 3 ==>
      At(lines, i).password.Some? && At(lines, i).password != Some(players[At(lines, 0).id.value].password)
    ensures Session(players, tickets, matches, lines, now) ==
      Outcome([PlayerFound, WrongPassword(1), WrongPassword(2), Blocked], 4, None)
  {
    var password := players[At(lines, 0).id.value].password;
    assert !CorrectAt(lines, 1, password) && !CorrectAt(lines, 2, password) && !CorrectAt(lines, 3, password);
    var r3 := PasswordFrom(lines, 3, 3, password);
    assert r3 == PasswordRound(false, [Blocked], 4);
    var r2 := PasswordFrom(lines, 2, 2, password);
    assert r2 == PasswordRound(false, [WrongPassword(2), Blocked], 4);
    var r1 := PasswordFrom(lines, 1, 1, password);
    assert r1 == PasswordRound(false, [WrongPassword(1), WrongPassword(2), Blocked], 4);
  }

  /**
   * A session whose three password lines are all not correct ends after
   * four reads and redeems nothing: after the password prompt it answers
   * each attempt with its failure reply, the third being the blocked line
   * or, for a malformed line, the format message.
   */
  lemma NoCorrectPasswordStops(players: Players, tickets: Tickets, matches: Matches, lines: seq<Line>, now: int)
    requires Identified(players, lines)
    requires forall i :: 1 <= i <= MaxAttempts ==> !CorrectAt(lines, i, players[At(lines, 0).id.value].password)
    ensures Session(players, tickets, matches, lines, now) ==
      Outcome([PlayerFound, FailureReply(At(lines, 1).password, 1), FailureReply(At(lines, 2).password, 2),
               FailureReply(At(lines, 3).password, 3)], 4, None)
  {
    var password := players[At(lines, 0).id.value].password;
    assert !CorrectAt(lines, 1, password) && !CorrectAt(lines, 2, password) && !CorrectAt(lines, 3, password);
    var r3 := PasswordFrom(lines, 3, 3, password);
    assert r3 == PasswordRound(false, [FailureReply(At(lines, 3).password, 3)], 4);
    var r2 := PasswordFrom(lines, 2, 2, password);
    assert r2.sent == [FailureReply(At(lines, 2).password, 2)] + r3.sent;
    var r1 := PasswordFrom(lines, 1, 1, password);
    assert r1.sent == [FailureReply(At(lines, 1).password, 1)] + r2.sent;
    assert !r1.ok && r1.next == 4;
  }

  // ----- Ticket checks -----

  /** The checks admit a ticket exactly when every condition holds. */
  lemma AdmitIff(tickets: Tickets, matches: Matches, playerId: string, code: string, now: int)
    ensures CheckTicket(tickets, matches, playerId, code, now) == None <==>
      && code in tickets
      && tickets[code].active
      && !tickets[code].used
      && tickets[code].playerId == playerId
      && tickets[code].matchId == TargetMatchId
      && TargetMatchId in matches
      && InWindow(now, matches[TargetMatchId].start, matches[TargetMatchId].end)
  {
    var v := CheckTicket(tickets, matches, playerId, code, now);
    if v.Some? {
      assert Fails(v.value, tickets, matches, playerId, code, now);
    }
  }

  // ----- What the terminal reads -----

  /** The refusal a character marks, if any. */
  function MarkedBy(c: char): Option<Refusal>
  {
    if c == 's' then Some(UnknownCode)
    else if c == 'u' then Some(Inactive)
    else if c == 'é' then Some(AlreadyUsed)
    else if c == 'a' then Some(NotOwner)
    else if c == ',' then Some(WrongMatch)
    else if c == 'r' then Some(OutOfWindow)
    else None
  }

  /** The character that sets each refusal's line apart from the others'. */
  function Mark(reason: Refusal): (c: char)
    ensures MarkedBy(c) == Some(reason)
  {
    match reason
    case UnknownCode => 's'
    case Inactive => 'u'
    case AlreadyUsed => 'é'
    case NotOwner => 'a'
    case WrongMatch => ','
    case OutOfWindow => 'r'
  }

  /** Where each refusal line carries its mark. */
  lemma MarkAt(reason: Refusal)
    ensures |RefusalMessage(reason)| > 28 && RefusalMessage(reason)[28] == Mark(reason)
  {
    match reason
    case UnknownCode =>
    case Inactive =>
    case AlreadyUsed =>
    case NotOwner =>
    case WrongMatch =>
    case OutOfWindow =>
  }

  /** Each refusal sends its own line: two refusals read the same exactly when they are the same check. */
  lemma RefusalsTellApart(a: Refusal, b: Refusal)
    ensures RefusalMessage(a) == RefusalMessage(b) <==> a == b
  {
    if RefusalMessage(a) == RefusalMessage(b) {
      MarkAt(a);
      MarkAt(b);
      assert MarkedBy(Mark(a)) == MarkedBy(Mark(b));
    }
  }

  // ----- Whole session -----

  /**
   * A session redeems a code exactly when the steps before the checks
   * present it and every check passes, and exactly when its last line is
   * the grant line.
   */
  lemma SuccessIff(players: Players, tickets: Tickets, matches: Matches, lines: seq<Line>, now: int)
    ensures var o := Session(players, tickets, matches, lines, now);
      var p := Prelude(players, lines);
      && (o.redeemed.Some? <==> p.Presented? && CheckTicket(tickets, matches, p.playerId, p.code, now) == None)
      && (o.redeemed.Some? ==> o.redeemed.value == p.code)
      && (o.redeemed.Some? <==> o.sent[|o.sent| - 1] == Granted)
  {
  }

  /**
   * What a session does to the ticket store: a refused session leaves it
   * as it was; a granted one sets `used` on the redeemed ticket, which was
   * unused, and changes nothing else.
   */
  lemma CommitEffect(players: Players, tickets: Tickets, matches: Matches, lines: seq<Line>, now: int)
    ensures var o := Session(players, tickets, matches, lines, now);
      var after := Commit(tickets, o.redeemed);
      && after.Keys == tickets.Keys
      && (o.redeemed.None? ==> after == tickets)
      && (o.redeemed.Some? ==>
            var c := o.redeemed.value;
            && c in tickets && !tickets[c].used
            && after[c] == tickets[c].(used := true)
            && forall other :: other in tickets && other != c ==> after[other] == tickets[other])
  {
  }

  /**
   * At-most-once redemption: once a session has redeemed `c`, a later
   * session presenting `c` ends with the already-used line and redeems
   * nothing, and no later session redeems `c`.
   */
  lemma SecondRedemptionRefused(players: Players, tickets: Tickets, matches: Matches,
                                first: seq<Line>, firstNow: int, second: seq<Line>, secondNow: int)
    requires Session(players, tickets, matches, first, firstNow).redeemed.Some?
    ensures var c := Session(players, tickets, matches, first, firstNow).redeemed.value;
      var o := Session(players, Commit(tickets, Some(c)), matches, second, secondNow);
      var p := Prelude(players, second);
      && o.redeemed != Some(c)
      && (p.Presented? && p.code == c ==>
            o == Outcome(p.sent + [Refused(AlreadyUsed)], p.consumed, None))
  {
    var c := Session(players, tickets, matches, first, firstNow).redeemed.value;
    var after := Commit(tickets, Some(c));
    assert after[c].used && after[c].active;
  }

  // ----- Many sessions -----

  /** One connection: the lines it sends and the minute its QR code is scanned. */
  datatype Visit = Visit(lines: seq<Line>, now: int)

  /** The ticket store after a run of sessions and the codes redeemed, in order. */
  datatype History = History(tickets: Tickets, redeemed: seq<string>)

  /** Sessions served one after another against a shared ticket store. */
  function Replay(players: Players, tickets: Tickets, matches: Matches, visits: seq<Visit>): (h: History)
    ensures h.tickets.Keys == tickets.Keys
    decreases |visits|
  {
    if visits == [] then History(tickets, [])
    else
      var o := Session(players, tickets, matches, visits[0].lines, visits[0].now);
      var after := Commit(tickets, o.redeemed);
      var h := Replay(players, after, matches, visits[1..]);
      match o.redeemed
      case None => h
      case Some(c) => History(h.tickets, [c] + h.redeemed)
  }

  /** No code appears twice. */
  predicate NoDuplicates(codes: seq<string>)
  {
    forall i, j :: 0 <= i < j < |codes| ==> codes[i] != codes[j]
  }

  /**
   * What a run of sessions may do to a store `before`, ending in `h`: every
   * redeemed code was an unused ticket in `before`, none is redeemed twice,
   * all of them end up used, a used ticket stays used, and a ticket changes
   * only in its `used` flag and only by being redeemed.
   */
  predicate RedeemsOnce(before: Tickets, h: History)
  {
    && h.tickets.Keys == before.Keys
    && NoDuplicates(h.redeemed)
    && (forall i :: 0 <= i < |h.redeemed| ==>
          h.redeemed[i] in before && !before[h.redeemed[i]].used && h.tickets[h.redeemed[i]].used)
    && (forall c :: c in before && before[c].used ==> h.tickets[c].used)
    && (forall c :: c in before ==> h.tickets[c] == before[c].(used := h.tickets[c].used))
    && (forall c :: c in before && c !in h.redeemed ==> h.tickets[c] == before[c])
  }

  /** Redeeming an unused ticket before a run that redeems each ticket at most once keeps that so. */
  lemma RedeemsOnceStep(before: Tickets, c: string, rest: History)
    requires c in before && !before[c].used
    requires RedeemsOnce(Redeem(before, c), rest)
    ensures RedeemsOnce(before, History(rest.tickets, [c] + rest.redeemed))
  {
    var after := Redeem(before, c);
    var h := History(rest.tickets, [c] + rest.redeemed);
    assert after[c].used;
    assert c !in rest.redeemed;
    forall i | 0 <= i < |h.redeemed|
      ensures h.redeemed[i] in before && !before[h.redeemed[i]].used && h.tickets[h.redeemed[i]].used
    {
      if i > 0 {
        assert h.redeemed[i] == rest.redeemed[i - 1];
      }
    }
    forall i, j | 0 <= i < j < |h.redeemed|
      ensures h.redeemed[i] != h.redeemed[j]
    {
      assert h.redeemed[j] == rest.redeemed[j - 1] && rest.redeemed[j - 1] in rest.redeemed;
      if i > 0 {
        assert h.redeemed[i] == rest.redeemed[i - 1];
      }
    }
  }

  /** However many sessions run one after another, each ticket is redeemed at most once. */
  lemma {:induction false} ReplayRedeemsOnce(players: Players, tickets: Tickets, matches: Matches, visits: seq<Visit>)
    ensures RedeemsOnce(tickets, Replay(players, tickets, matches, visits))
    decreases |visits|
  {
    if visits != [] {
      var o := Session(players, tickets, matches, visits[0].lines, visits[0].now);
      var after := Commit(tickets, o.redeemed);
      ReplayRedeemsOnce(players, after, matches, visits[1..]);
      var rest := Replay(players, after, matches, visits[1..]);
      if o.redeemed.Some? {
        RedeemsOnceStep(tickets, o.redeemed.value, rest);
      } else {
        assert after == tickets;
      }
    }
  }

  /**
   * At-most-once redemption across any number of sessions: once a session
   * has redeemed `c`, a session served after any run of other sessions
   * never redeems `c`, and presenting `c` is answered with the already-used
   * line.
   */
  lemma LaterRedemptionRefused(players: Players, tickets: Tickets, matches: Matches, first: seq<Line>, firstNow: int,
                               between: seq<Visit>, later: seq<Line>, laterNow: int)
    requires Session(players, tickets, matches, first, firstNow).redeemed.Some?
    ensures var c := Session(players, tickets, matches, first, firstNow).redeemed.value;
      var store := Replay(players, Commit(tickets, Some(c)), matches, between).tickets;
      var o := Session(players, store, matches, later, laterNow);
      var p := Prelude(players, later);
      && o.redeemed != Some(c)
      && (p.Presented? && p.code == c ==>
            o == Outcome(p.sent + [Refused(AlreadyUsed)], p.consumed, None))
  {
    var c := Session(players, tickets, matches, first, firstNow).redeemed.value;
    var after := Commit(tickets, Some(c));
    ReplayRedeemsOnce(players, after, matches, between);
    var store := Replay(players, after, matches, between).tickets;
    assert after[c].used && after[c].active;
    assert store[c] == after[c].(used := store[c].used);
  }
}
