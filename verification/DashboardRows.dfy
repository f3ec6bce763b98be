/** Rows of the dashboard's probe table and the live probes they are compared with. */
module DashboardRows {
  import opened Common

  /**
    A row. An `uuid` or `ip` of "" stands for one that is missing. `asn` and `city` take part in the
    matching; the remaining columns that are copied from the live probe are in `others`.
   */
  datatype DProbe = DProbe(id: string, uuid: string, ip: string, altIps: seq<string>, status: string, asn: string, city: string,
                           userId: Option<string>, adoptionToken: string, others: map<string, string>)

  datatype Probe = Probe(client: string, uuid: string, ip: string, altIps: seq<string>, status: string, asn: string, city: string,
                         adoptionToken: string, others: map<string, string>)

  const OFFLINE := "offline"

  predicate Adopted(d: DProbe) {
    d.userId.Some?
  }

  datatype Match = Match(dProbe: DProbe, probe: Probe)

  function RowsOf(matched: seq<Match>): seq<DProbe> {
    seq(|matched|, i requires 0 <= i < |matched| => matched[i].dProbe)
  }

  lemma RowsOfOneMore(matched: seq<Match>, m: Match)
    ensures RowsOf(matched + [m]) == RowsOf(matched) + [m.dProbe]
  {
  }
}
