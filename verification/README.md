# Stadium gate access dialogue — a Dafny model

This project models the access server of a stadium gate (`server.py`).
A gate terminal connects and holds a short dialogue over text lines:

1. It names the player (`ID_JOUEUR:<id>`). The server requires a known,
   `"actif"` player who holds a reservation for match 401.
2. It gets up to three password attempts (`MOT_DE_PASSE:<pwd>`).
3. It presents a ticket (`QR_CODE:<code>`). The ticket goes through an
   ordered chain of checks: exists, active, not used, owned by this player,
   for match 401, scanned inside the match's admission window.
4. When every check passes, the ticket is marked used in place and the gate
   opens.

Every way out sends one last reply. Only full success changes the ticket
store.

The model is in six modules:

- `Text` (text.dfy) holds the string handling applied to every received
  line:
  - `rstrip("\r\n")`;
  - `startswith`;
  - the text after the first colon (`split(":", 1)[1]`);
  - `strip()` with Python's whitespace set.
- `Window` (window.dfy) is `in_window`, with times as whole minutes.
- `Dialogue` (dialogue.dfy) is the pure specification of one session:
  - the player, ticket and match records;
  - the server's replies, as a `Reply` datatype, with `Wording` giving each
    reply's literal French line;
  - the view of a received line (`Line`: its value under each of the three
    keys);
  - the password step (`PasswordFrom`);
  - the ticket check chain (`CheckTicket`);
  - `Session`, the whole outcome: replies sent, lines read, code redeemed.
- `Properties` (properties.dfy) holds the lemmas about sessions, including
  at-most-once redemption over any run of sessions (`Replay`).
- `Server` (server.dfy) is the imperative server:
  - class `GateServer` holds the player and match records and the mutable
    ticket map;
  - `HandleClient` reads the terminal's lines one by one;
  - `PasswordStep` runs the attempt loop;
  - `Admit` runs the check chain and marks the ticket used in place.

  Each method is proved equal to the `Dialogue` specification.
- `Scenarios` (scenarios.dfy) holds sessions against the server's built-in
  records, and shows that a written badge parses to the expected values.

Modelling choices:

- Each element of the input is the raw text one `read_line` call receives,
  terminator included (`Received`): it stops at its first newline, and only
  the last element, cut short by the end of the stream, may lack one.
  - `read_line` strips trailing `\r`/`\n`.
  - A read past the end of the stream yields the empty line, as the socket
    does once the client has closed.
- The input's parsed view (`Parse`, `Reads`) is passed to `HandleClient` as
  a ghost argument. The method itself reads the raw text through `ReadKey`,
  which is proved to agree with the view.
- The scan time `now` is a parameter in minutes, in place of
  `datetime.now()`.
- A reply is sent as the line `Wording(reply)`, followed by a newline.

## Model

| member | source | states |
|---|---|---|
| Window.InWindow | server.py:44-49 | a scan is admitted exactly when `start - 30 <= t <= max(start + 15, end)`; in particular, from `start - 30` on, at any minute up to `start + 15` or up to the recorded end |
| Window.InWindowIsUnion | server.py:44-49 | admitted exactly when `start - 30 <= t <= start + 15` or `start - 30 <= t <= end`; an end earlier than `start + 15` does not shorten the window |
| Window.InWindowBounds | server.py:44-49 | both bounds are inclusive: `start - 30` and `max(start + 15, end)` are admitted, one minute outside either is refused |
| Window.InWindowConvex | server.py:44-49 | the admitted minutes form a single interval |
| Text.IsSpace | server.py:61 | the characters `strip()` removes: U+0009 to U+000D, U+001C to U+0020, U+0085, U+00A0, U+1680, U+2000 to U+200A, U+2028, U+2029, U+202F, U+205F and U+3000 |
| Text.TrimEnd | server.py:42 | `rstrip` keeps a prefix of the text, removes only characters of the class, and leaves a last character outside it |
| Text.TrimBoth | server.py:61 | `strip` keeps the slice between a leading and a trailing run of the class, and its result starts and ends outside the class |
| Text.AfterFirstColon | server.py:61 | `split(":", 1)[1]` is the suffix after the first colon, with no colon before it |
| Text.StartsWithIsPrefix | server.py:57 | `startswith` holds exactly when the key is a sequence prefix of the line |
| Text.HasPrefix | server.py:57 | a line passes the key test, the negation of `not line or not line.startswith(key)` at lines 57, 82 and 100, exactly when it is non-empty and starts with the key |
| Text.ColonOfPrefixed | server.py:57-61 | a line accepted by the key test has a colon, so the split always has a second part |
| Text.KeyPrefixesExclusive | server.py:57 | a line carries at most one of two different key prefixes |
| Text.TrimBothOfPadded | server.py:61 | `strip` removes exactly the whitespace padding around a text that neither starts nor ends with whitespace |
| Text.StripIdempotent | server.py:61 | stripping twice is stripping once |
| Text.AfterKeyPrefix | server.py:61 | after a key such as `ID_JOUEUR:` the split yields the rest of the line unchanged, later colons included |
| Text.FieldValueOf | server.py:61 | the value of `KEY:` + padding + `v` + padding is exactly `v` |
| Text.FieldValue | server.py:61 | `split(":", 1)[1].strip()` has no whitespace at either end and is shorter than the line |
| Text.TrimEndOfPadded | server.py:42 | `rstrip("\r\n")` of a text followed by terminators, where the text does not end in a terminator, gives back exactly that text |
| Text.KeyedValue | server.py:57-61 | a line `KEY:v` with `v` unpadded passes the key test, has a colon, and has value `v` |
| Text.ReadField | server.py:35-42 | for any `v` without whitespace at either end, a line `KEY:v` ended by terminators, a newline only last, reads back as `KEY:v`, carries its key, and has value `v` |
| Dialogue.Prefix | server.py:57 | each key is a prefix ending with its only colon |
| Dialogue.PrefixesDiffer | server.py:57 | the three keys have different prefixes |
| Dialogue.Keyed | server.py:57-61 | builds the view a `KEY:v` line is expected to have: `v` under that key and nothing under the other two |
| Dialogue.ReadKeyed | server.py:35-42 | a line written as `KEY:v` plus terminators, as one read returns it, is seen as `v` under that key only, for any unpadded single-line `v` |
| Dialogue.OneKeyPerLine | server.py:57 | a line starts with at most one of the three keys |
| Dialogue.KeyValue | server.py:57-61 | a line has a value under a key exactly when it is non-empty and starts with the key, as at lines 57, 82 and 100; the value, taken as at lines 61, 85 and 103, has no whitespace at either end and is shorter than the line |
| Dialogue.LineOf | server.py:57-103 | the view has a value under a key exactly when the line starts with that key; it has a value under at most one key; the empty line has none |
| Dialogue.ReadLine | server.py:35-42 | read `pos` is the received text with its trailing `\r`/`\n` run removed, so it is a prefix of that text that does not end in a terminator; past the end of the stream it is the empty line |
| Dialogue.NatText | server.py:83 | `str(attempt)`: the digits of the number, reading back as that number, with no leading zero; 0 is written "0" |
| Dialogue.RefusalMessage | server.py:105-127 | the six refusal lines, byte for byte as the source sends them; each ends with ", accès refusé" |
| Dialogue.Wording | server.py:58-131 | every reply's line, byte for byte as the source sends it; a refusal ends with ", accès refusé", a wrong-password line ends with the attempt number and "/2", and a format reply ends with the attempt number and "/2)" |
| Dialogue.FailureReply | server.py:82-93 | a malformed or empty line gets the format reply and a well-formed wrong one the "tentative n/2" reply on attempts 1 and 2 and the blocked line on attempt 3; both numbered replies carry the attempt's number |
| Dialogue.CheckTicket | server.py:105-127 | a refusal names a check that fails and no earlier check fails; no refusal means no check fails |
| Dialogue.Parse | server.py:35-42 | the view of the input has one line per received line |
| Dialogue.ParseReads | server.py:35-42 | `Parse` is how the dialogue sees every received line, in order |
| Dialogue.LineAt | server.py:35-42 | read number `pos` of the view is the view of what `read_line` returns, the empty line past the end of the stream included |
| Dialogue.PasswordFrom | server.py:79-93 | the step reads at most one line per remaining attempt; on failure it has read all of them; the replies are one per failed attempt |
| Dialogue.FailedAttempt | server.py:82-93 | a failed attempt answers with its failure reply, then hands over to the next attempt on the next line |
| Dialogue.Prelude | server.py:56-103 | the steps before the checks read 1 to 5 lines and send at least one reply; reaching the checks needs an active player with a reservation for 401 and a correct password on one of reads 1 to 3; the player is the one named on read 0, the code is the value on the last read, and the last reply is then the QR prompt |
| Dialogue.Session | server.py:52-131 | a session sends at least one reply and reads 1 to 5 lines; a redeemed code ends with the grant reply and names an existing, active, unused ticket |
| Dialogue.Redeem | server.py:130 | setting `used` changes only that ticket, and in it only the `used` flag |
| Dialogue.Commit | server.py:130 | the store after a session keeps its tickets; it is unchanged when nothing was redeemed; the redeemed ticket ends used; a ticket changes only in `used`, and only the redeemed one |
| Properties.IdentifyRefusals | server.py:56-76 | the session stops after one read exactly when identification fails, with the format, unknown-player or no-reservation reply as the case may be; otherwise the first reply is the password prompt |
| Properties.PasswordStopsAtFirstCorrect | server.py:80-88 | every password line answered was not correct, and a successful step ends on the first correct line |
| Properties.PasswordOkIff | server.py:80-94 | the step succeeds exactly when one of the lines it may read carries the password |
| Properties.PasswordReply | server.py:82-93 | reply `k` answers attempt `k + 1`: format message for a malformed line, "tentative n/2" on attempts 1 and 2, blocked on attempt 3 |
| Properties.CorrectOnAttempt | server.py:80-96 | a first correct password on attempt `k` gives the QR prompt as reply `k` after `k + 2` reads in all |
| Properties.MalformedQrStops | server.py:99-102 | after a first correct password on attempt `k`, a QR line that is empty, missing or not keyed `QR_CODE:` gives the QR format reply after the QR prompt, after `k + 2` reads, redeeming nothing |
| Properties.ThreeWrongPasswordsBlock | server.py:80-95 | three well-formed wrong passwords end the session after four reads, with two wrong-password replies and the blocked reply, redeeming nothing |
| Properties.NoCorrectPasswordStops | server.py:80-95 | when none of reads 1 to 3 carries the password, the session reads four lines, sends the prompt and one failure reply per attempt, and redeems nothing |
| Properties.AdmitIff | server.py:105-127 | the checks admit a ticket exactly when it exists, is active and unused, belongs to the player, is for 401, and 401 is scheduled with the scan in its window |
| Properties.MarkAt | server.py:107-126 | each refusal line has its own character at position 28 |
| Properties.RefusalsTellApart | server.py:105-127 | two refusal lines are equal exactly when the refusals are the same |
| Properties.SuccessIff | server.py:105-131 | a code is redeemed exactly when it is presented and passes every check, and exactly when the last reply is the grant |
| Properties.CommitEffect | server.py:56-131 | a refused session leaves the ticket store unchanged; a granted one marks the redeemed ticket, which was unused, and changes nothing else |
| Properties.SecondRedemptionRefused | server.py:109-113 | after a code is redeemed, the next session never redeems it again, and presenting it is answered with the already-used reply |
| Properties.Replay | server.py:130 | running sessions one after another keeps the set of tickets |
| Properties.RedeemsOnceStep | server.py:112-131 | redeeming an unused ticket in front of a run that redeems each ticket at most once keeps that so |
| Properties.ReplayRedeemsOnce | server.py:112-131 | over any run of sessions: each redeemed code was an unused ticket and ends used, none is redeemed twice, used tickets stay used, and tickets change only in `used` and only by being redeemed |
| Properties.LaterRedemptionRefused | server.py:109-131 | after a code is redeemed, a session served after any run of other sessions never redeems it, and presenting it is answered with the already-used reply |
| Server.ReadKey | server.py:56-61 | one read returns exactly the value its line carries under the expected key, or nothing for an empty or wrongly keyed line |
| Server.PasswordStep | server.py:79-95 | the attempt loop sends the replies, reports the success and reaches the read position that `PasswordFrom` gives |
| Server.GateServer.constructor | server.py:10-26 | the server starts with the built-in players, matches and tickets |
| Server.GateServer.Admit | server.py:105-131 | the first failing check is the refusal sent, leaving the tickets as they were; when none fails the ticket is marked used in place and access is granted |
| Server.GateServer.HandleClient | server.py:52-131 | for input that arrives one `read_line` at a time, the replies sent, the lines read and the new ticket store are those of `Session` on the received lines |
| Scenarios.ParseThree | server.py:35-42 | three received lines are viewed one by one, in order |
| Scenarios.BadgeReads | server.py:56-103 | a badge of three `KEY:value` lines, each value single-line and without whitespace at either end, is seen as the id, the password and the QR code |
| Scenarios.HolderAdmittedInWindow | server.py:10-26 | player 158 with ticket ABC123XYZ is let in exactly from 22:00 to 22:45, and refused for the window at any other minute |
| Scenarios.ReplayAfterGrant | server.py:23-26 | after the grant, presenting ABC123XYZ again is refused as already used |
| Scenarios.UsedTicketRefused | server.py:23-26 | ZED900AAA, used from the start, is refused as already used |
| Scenarios.NoReservationStops | server.py:10-13 | player 200, with no reservation, is refused after the first line |

## Left out

- client.java is not part of this model. It is an interactive console client with no decision logic of its own.
- `main` is left out: socket bind, listen and accept, and one thread per connection. Threads share the ticket map without locking. The model serves sessions one after another (`Replay`), so races between concurrent sessions are not captured.
- Socket plumbing is left out:
  - `send_line` is modelled as adding a reply to the sequence sent;
  - the bytes on the wire are `Wording(reply)` plus a newline, in UTF-8.
- UTF-8 decoding of the received bytes is left out. A decoding error would raise and reach the generic handler.
- The clock is left out: `datetime.now()` and the wall-clock match times. The scan time and the match times are integers in minutes, so sub-minute precision is not modelled.
- The generic exception handler (the "Erreur serveur" reply), `conn.close()` and the `print` logging are left out.
  - With the built-in records, no step of the dialogue raises.
  - A send to a closed connection, which would raise, is not modelled.
- The `.get(..., default)` lookups are modelled by typed records, so every field is present: `reservations`, `active` and `used` always exist.
- Dialogue.Wording: the contract states how the lines end; the full text of each line is its body, which follows the source byte for byte.
- Server.GateServer.HandleClient: returns the `Reply` values sent rather than their text. `Wording` gives the text. `RefusalsTellApart` and `Prefix` cover the distinctions between literals that the dialogue relies on.
- Password attempts follow the code: three, as `range(1, 4)` gives, although the messages say "/2" and "après 2 tentatives".
- Match 401 follows the code: start 22:30, end 19:00, although its comment says 17:00–19:00. With the end before the start, the window is 22:00–22:45.
