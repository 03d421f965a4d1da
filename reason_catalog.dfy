/** Resolving a reason code to its display name. */
module ReasonCatalog {
  import opened Types

  /** `catalog.find(r => r.code === code)?.name || ''`. */
  function FindName(catalog: seq<ReasonEntry>, code: string): (name: string)
    ensures name != "" ==> exists i :: 0 <= i < |catalog| && catalog[i].code == code && catalog[i].name == name
    ensures (forall i :: 0 <= i < |catalog| ==> catalog[i].code != code) ==> name == ""
    decreases |catalog|
  {
    if catalog == [] then ""
    else if catalog[0].code == code then catalog[0].name
    else FindName(catalog[1..], code)
  }

  /** The name comes from the first entry carrying the code; later duplicates are ignored. */
  lemma {:induction false} FindNameFirst(catalog: seq<ReasonEntry>, code: string, k: nat)
    requires k < |catalog| && catalog[k].code == code
    requires forall j :: 0 <= j < k ==> catalog[j].code != code
    ensures FindName(catalog, code) == catalog[k].name
    decreases k
  {
    if k > 0 {
      FindNameFirst(catalog[1..], code, k - 1);
    }
  }
}
