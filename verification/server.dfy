/**
 * The gate server: the player, ticket and match records it holds, and the
 * dialogue it runs with one connected terminal, reading the terminal's
 * lines one by one, answering each step, and marking the ticket used in
 * place when access is granted.
 */
module Server {
  import opened Text
  import opened Window
  import opened Dialogue

  /**
   * One read of the dialogue: `read_line`, then `None` when the line is
   * empty or lacks the key, otherwise the stripped text after its first
   * colon.
   */
  method ReadKey(input: seq<string>, ghost lines: seq<Line>, pos: nat, key: Key) returns (value: Option<string>)
    requires Reads(input, lines)
    ensures value == ValueOf(At(lines, pos), key)
  {
    var line := ReadLine(input, pos);
    LineAt(input, lines, pos);
    if !HasPrefix(line, Prefix(key)) {
      value := None;
    } else {
      ColonOfPrefixed(line, Prefix(key));
      value := Some(FieldValue(line));
    }
  }

  /**
   * The password step, from the second line on: up to three attempts, each
   * reading one line; a correct password ends the step at once, a malformed
   * line or a wrong password is answered and uses up the attempt. The replies
   * sent, whether the step succeeded and the number of lines read so far are
   * those `PasswordFrom` gives.
   */
  method PasswordStep(input: seq<string>, ghost lines: seq<Line>, password: string)
    returns (sent: seq<Reply>, ok: bool, consumed: nat)
    requires Reads(input, lines)
    ensures var round := PasswordFrom(lines, 1, 1, password);
      sent == round.sent && ok == round.ok && consumed == round.next
  {
    ghost var round := PasswordFrom(lines, 1, 1, password);
    sent := [];
    consumed := 1;
    ok := false;
    for attempt := 1 to MaxAttempts + 1
      invariant consumed == attempt
      invariant !ok
      invariant var rest := PasswordFrom(lines, consumed, attempt, password);
        sent + rest.sent == round.sent && rest.ok == round.ok && rest.next == round.next
    {
      var pwd := ReadKey(input, lines, consumed, PasswordKey);
      if pwd.Some? && pwd.value == password {
        consumed, ok := consumed + 1, true;
        break;
      }
      FailedAttempt(lines, consumed, attempt, password, sent);
      sent, consumed := sent + [FailureReply(pwd, attempt)], consumed + 1;
    }
  }

  class GateServer {
    const players: Players
    var tickets: Tickets
    const matches: Matches

    /** A server holding its built-in records. */
    constructor ()
      ensures players == FixturePlayers() && tickets == FixtureTickets() && matches == FixtureMatches()
    {
      players := FixturePlayers();
      tickets := FixtureTickets();
      matches := FixtureMatches();
    }

    /**
     * The ticket checks, in order, for the code `code` presented by player
     * `playerId` at minute `now`: the first failing check is the refusal
     * sent; when none fails the ticket is marked used in place and access is
     * granted.
     */
    method Admit(playerId: string, code: string, now: int) returns (reply: Reply)
      modifies this
      ensures var v := CheckTicket(old(tickets), matches, playerId, code, now);
        && (v.Some? ==> reply == Refused(v.value) && tickets == old(tickets))
        && (v.None? ==> reply == Granted && tickets == Redeem(old(tickets), code))
    {
      if code !in tickets {
        return Refused(UnknownCode);
      }
      var ticket := tickets[code];
      if !ticket.active {
        return Refused(Inactive);
      }
      if ticket.used {
        return Refused(AlreadyUsed);
      }
      if ticket.playerId != playerId {
        return Refused(NotOwner);
      }
      if ticket.matchId != TargetMatchId {
        return Refused(WrongMatch);
      }
      if ticket.matchId !in matches || !InWindow(now, matches[ticket.matchId].start, matches[ticket.matchId].end) {
        return Refused(OutOfWindow);
      }
      tickets := tickets[code := ticket.(used := true)];
      reply := Granted;
    }

    /**
     * Serve one connection whose terminal sends `input`, the QR code being
     * scanned at minute `now`: the replies sent (each going out as the line
     * `Wording` gives it), the number of lines read and the new ticket
     * records are those of `Session` on the parsed input.
     */
    method HandleClient(input: seq<string>, ghost lines: seq<Line>, now: int) returns (sent: seq<Reply>, consumed: nat)
      requires Received(input) && Reads(input, lines)
      modifies this
      ensures var o := Session(players, old(tickets), matches, lines, now);
        sent == o.sent && consumed == o.consumed && tickets == Commit(old(tickets), o.redeemed)
    {
      // Step 1: identification.
      var id := ReadKey(input, lines, 0, PlayerKey);
      consumed := 1;
      if id.None? {
        sent := [IdFormat];
        return;
      }
      var playerId := id.value;
      if playerId !in players || players[playerId].status != ActiveStatus {
        sent := [UnknownPlayer];
        return;
      }
      var player := players[playerId];
      if TargetMatchId !in player.reservations {
        sent := [NoReservation];
        return;
      }

      // Step 2: up to three password attempts.
      var attempts, okPwd;
      attempts, okPwd, consumed := PasswordStep(input, lines, player.password);
      sent := [PlayerFound] + attempts;
      if !okPwd {
        return;
      }
      sent := sent + [PasswordOk];

      // Step 3: the QR code, then the ticket checks.
      var qr := ReadKey(input, lines, consumed, QrKey);
      consumed := consumed + 1;
      if qr.None? {
        sent := sent + [QrFormat];
        return;
      }
      assert Prelude(players, lines) == Presented(playerId, qr.value, sent, consumed);
      var reply := Admit(playerId, qr.value, now);
      sent := sent + [reply];
    }
  }
}
