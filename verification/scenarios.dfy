/**
 * Sessions against the server's built-in records: player "158" (password
 * "1234", reservation for match 401), player "200" (no reservation), the
 * unused ticket "ABC123XYZ" and the already used "ZED900AAA", and match 401
 * starting at 22:30 with an end (19:00) that lies before its start.
 *
 * The sessions are stated on the view of a badge; `BadgeReads` shows that
 * the three lines a terminal writes are seen as that view.
 */
module Scenarios {
  import opened Text
  import opened Dialogue

  /** What a terminal sends: its three lines, each ended by a newline. */
  function Badge(id: string, password: string, code: string): seq<string>
  {
    [Prefix(PlayerKey) + id + "\n", Prefix(PasswordKey) + password + "\n", Prefix(QrKey) + code + "\n"]
  }

  /** Three received lines parse one by one. */
  lemma ParseThree(a: string, b: string, c: string)
    ensures Parse([a, b, c]) == [LineOf(StripLineEnd(a)), LineOf(StripLineEnd(b)), LineOf(StripLineEnd(c))]
  {
    assert Parse([c]) == [LineOf(StripLineEnd(c))] by {
      assert [c][1..] == [];
    }
    assert Parse([b, c]) == [LineOf(StripLineEnd(b)), LineOf(StripLineEnd(c))] by {
      assert [b, c][1..] == [c];
    }
    assert [a, b, c][1..] == [b, c];
  }

  /** How the dialogue sees a badge: the player id, the password and the QR code, one per line. */
  function Presenting(id: string, password: string, code: string): seq<Line>
  {
    [Keyed(PlayerKey, id), Keyed(PasswordKey, password), Keyed(QrKey, code)]
  }

  /** A badge whose values are single-line and carry no surrounding whitespace reads as those three values, in order. */
  lemma BadgeReads(id: string, password: string, code: string)
    requires TrimmedBy(id, IsSpace) && TrimmedBy(password, IsSpace) && TrimmedBy(code, IsSpace)
    requires '\n' !in id && '\n' !in password && '\n' !in code
    ensures Parse(Badge(id, password, code)) == Presenting(id, password, code)
  {
    ParseThree(Prefix(PlayerKey) + id + "\n", Prefix(PasswordKey) + password + "\n", Prefix(QrKey) + code + "\n");
    ReadKeyed(PlayerKey, id, "\n");
    ReadKeyed(PasswordKey, password, "\n");
    ReadKeyed(QrKey, code, "\n");
  }

  /** 22:00, the earliest scan match 401 admits: thirty minutes before its 22:30 start. */
  const Opening: int := 22 * 60
  /** 22:45, the latest: fifteen minutes after the start, the end being earlier. */
  const Closing: int := 22 * 60 + 45

  /**
   * Player "158" with ticket "ABC123XYZ" gets in exactly between 22:00 and
   * 22:45; at any other minute the window check refuses the ticket.
   */
  lemma HolderAdmittedInWindow(now: int)
    ensures var o := Session(FixturePlayers(), FixtureTickets(), FixtureMatches(), Presenting("158", "1234", "ABC123XYZ"), now);
      && (Opening <= now <= Closing ==> o == Outcome([PlayerFound, PasswordOk, Granted], 3, Some("ABC123XYZ")))
      && (!(Opening <= now <= Closing) ==> o == Outcome([PlayerFound, PasswordOk, Refused(OutOfWindow)], 3, None))
  {
  }

  /** Once "ABC123XYZ" has let its holder in, presenting it again is refused as already used. */
  lemma ReplayAfterGrant(first: int, second: int)
    requires Opening <= first <= Closing
    ensures var badge := Presenting("158", "1234", "ABC123XYZ");
      var o := Session(FixturePlayers(), FixtureTickets(), FixtureMatches(), badge, first);
      Session(FixturePlayers(), Commit(FixtureTickets(), o.redeemed), FixtureMatches(), badge, second)
        == Outcome([PlayerFound, PasswordOk, Refused(AlreadyUsed)], 3, None)
  {
    HolderAdmittedInWindow(first);
  }

  /** "ZED900AAA" was used before the server started: it is refused even in the window. */
  lemma UsedTicketRefused(now: int)
    ensures Session(FixturePlayers(), FixtureTickets(), FixtureMatches(), Presenting("158", "1234", "ZED900AAA"), now)
      == Outcome([PlayerFound, PasswordOk, Refused(AlreadyUsed)], 3, None)
  {
  }

  /** Player "200" holds no reservation for match 401: the session ends after the first line. */
  lemma NoReservationStops(now: int)
    ensures Session(FixturePlayers(), FixtureTickets(), FixtureMatches(), Presenting("200", "0000", "ABC123XYZ"), now)
      == Outcome([NoReservation], 1, None)
  {
  }
}
