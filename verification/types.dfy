/** The record shape of types.ts: an activity record logged by a team member,
    with its category, and the five-counter tally used by the weekly view. */
module Types {

  /** The closed set of activity categories (`Record.type`). */
  datatype Category = Roadshow | Call | Report | Service | Internal

  /** The fixed display order of the weekly view: roadshow, call, report, service, internal. */
  const CategoryOrder: seq<Category> := [Roadshow, Call, Report, Service, Internal]

  /** An activity record. The date is a local calendar day number (day 0 is
      1970-01-01); the optional category-specific attributes of types.ts
      (institution, reportType, serviceType, ...) play no part in any
      computation and are not modelled. */
  datatype Record = Record(id: string, kind: Category, member: string, date: int, topic: string, timestamp: int)

  /** `{ roadshow, call, report, service, internal }` counters. */
  datatype Counts = Counts(roadshow: nat, call: nat, report: nat, service: nat, internal: nat)
  {
    function Get(c: Category): nat
    {
      match c
      case Roadshow => roadshow
      case Call => call
      case Report => report
      case Service => service
      case Internal => internal
    }

    /** `counts[c]++`: exactly the counter of `c` goes up by one. */
    function Inc(c: Category): (r: Counts)
      ensures r.Get(c) == Get(c) + 1
      ensures forall d :: d != c ==> r.Get(d) == Get(d)
    {
      match c
      case Roadshow => this.(roadshow := roadshow + 1)
      case Call => this.(call := call + 1)
      case Report => this.(report := report + 1)
      case Service => this.(service := service + 1)
      case Internal => this.(internal := internal + 1)
    }
  }

  /** `{ roadshow: 0, call: 0, report: 0, service: 0, internal: 0 }` */
  const ZeroCounts := Counts(0, 0, 0, 0, 0)
}
