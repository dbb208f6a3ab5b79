/** The rows and messages that the stores, the writer and the webhook dispatcher share. Times are in
    microseconds. */
module CertData {
  import opened Entry

  const SECOND := 1_000_000
  const DAY := 86_400 * SECOND

  datatype CertRow = CertRow(
    certHash: bytes, issuerHash: bytes, issuerCn: string, notBefore: int, notAfter: int,
    sans: seq<string>, registeredDomains: seq<string>)

  /** What a watchlist alert says. */
  datatype Alert = Alert(matchedAt: int, matches: seq<string>, cert: CertRow)

  /** The body of a webhook: an alert under an event id of its own, which is not that of its outbox row. */
  datatype Message = Message(eventId: nat, alert: Alert)

  /** The one clock of the process and the database. */
  class Clock {
    var now: int

    method Read() returns (t: int)
      modifies this
      ensures old(now) <= now == t
    {
      var d: nat :| true;
      now := now + d;
      return now;
    }
  }
}
