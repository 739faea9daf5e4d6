/** The Lead record shared by the grid and the mock store: four string fields,
    addressed by column the way a JavaScript object is addressed by key. */
module LeadRecord {

  /** The four accessor columns of the grid; also the keys a PATCH body may carry. */
  datatype Column = Name | Submitted | Status | Country

  datatype Lead = Lead(name: string, submitted: string, status: string, country: string)
  {
    /** The field stored under column `c` (`lead[c]` in the source). */
    function Get(c: Column): string
    {
      match c
      case Name => name
      case Submitted => submitted
      case Status => status
      case Country => country
    }

    /** `{ ...lead, [c]: v }`: a copy with field `c` overwritten and the others kept. */
    function With(c: Column, v: string): (r: Lead)
      ensures r.Get(c) == v
      ensures forall d :: d != c ==> r.Get(d) == Get(d)
    {
      match c
      case Name => this.(name := v)
      case Submitted => this.(submitted := v)
      case Status => this.(status := v)
      case Country => this.(country := v)
    }
  }
}
