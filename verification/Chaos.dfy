/** The per-issuer fault map (src/mock_idp/chaos.py). */
module Chaos {
  import opened Wrappers
  import opened Tokens

  class Faults {
    var faults: map<string, Fault>

    constructor ()
      ensures faults == map[]
    {
      faults := map[];
    }

    method SetFault(issuer: string, fault: Fault)
      modifies this
      ensures faults == old(faults)[issuer := fault]
    {
      faults := faults[issuer := fault];
    }

    /** Reports whether there was a fault to clear. */
    method ClearFault(issuer: string) returns (present: bool)
      modifies this
      ensures present == (issuer in old(faults))
      ensures faults == old(faults) - {issuer}
    {
      present := issuer in faults;
      faults := faults - {issuer};
    }

    function GetFault(issuer: string): Option<Fault>
      reads this
    {
      Lookup(faults, issuer)
    }
  }
}
