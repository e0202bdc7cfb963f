/** The machine search screen (src/pages/Search.tsx): a case-insensitive text
    match on name, location or address, combined with an optional status
    filter, and the pluralised result count. */
module SearchPage {
  import opened Wrappers
  import opened Types
  import Seqs
  import Text

  /** `field.toLowerCase().includes(query.toLowerCase())`. */
  predicate FieldMatches(field: string, query: string) {
    Text.Includes(Text.Lower(field), Text.Lower(query))
  }

  predicate MatchesSearch(m: Machine, query: string) {
    FieldMatches(m.name, query) || FieldMatches(m.location, query) || FieldMatches(m.address, query)
  }

  /** A null filter admits every status. */
  predicate MatchesStatus(m: Machine, statusFilter: Option<MachineStatus>) {
    statusFilter == None || m.status == statusFilter.value
  }

  /** The machines the search screen lists: the text match and the status filter. */
  predicate Shown(m: Machine, query: string, statusFilter: Option<MachineStatus>) {
    MatchesSearch(m, query) && MatchesStatus(m, statusFilter)
  }

  /** `filteredMachines`. */
  function FilteredMachines(catalog: seq<Machine>, query: string, statusFilter: Option<MachineStatus>): (r: seq<Machine>)
    ensures Seqs.IsSubseq(r, catalog)
    ensures forall m :: m in r ==> m in catalog && MatchesSearch(m, query) && MatchesStatus(m, statusFilter)
    ensures forall m :: m in catalog && MatchesSearch(m, query) && MatchesStatus(m, statusFilter) ==> m in r
    ensures statusFilter.Some? ==> forall i :: 0 <= i < |r| ==> r[i].status == statusFilter.value
    ensures forall m :: multiset(r)[m] == if Shown(m, query, statusFilter) then multiset(catalog)[m] else 0
  {
    var keep := (m: Machine) => Shown(m, query, statusFilter);
    Seqs.FilterIsSubseq(catalog, keep);
    Seqs.FilterMultiset(catalog, keep);
    Seqs.Filter(catalog, keep)
  }

  /** A machine is kept exactly when the lower-cased query occurs at some
      position of its lower-cased name, location or address, and its status
      passes the filter. */
  lemma KeptIffOccurs(catalog: seq<Machine>, query: string, statusFilter: Option<MachineStatus>, m: Machine)
    requires m in catalog
    ensures m in FilteredMachines(catalog, query, statusFilter) <==>
      (|| (exists i :: 0 <= i <= |m.name| && Text.StartsWith(Text.Lower(m.name)[i..], Text.Lower(query)))
       || (exists i :: 0 <= i <= |m.location| && Text.StartsWith(Text.Lower(m.location)[i..], Text.Lower(query)))
       || (exists i :: 0 <= i <= |m.address| && Text.StartsWith(Text.Lower(m.address)[i..], Text.Lower(query))))
      && (statusFilter == None || m.status == statusFilter.value)
  {
    Text.IncludesIffOccurs(Text.Lower(m.name), Text.Lower(query));
    Text.IncludesIffOccurs(Text.Lower(m.location), Text.Lower(query));
    Text.IncludesIffOccurs(Text.Lower(m.address), Text.Lower(query));
  }

  /** An empty query with no status filter lists the whole catalog. */
  lemma EmptySearchListsAll(catalog: seq<Machine>)
    ensures FilteredMachines(catalog, "", None) == catalog
  {
    var keep := (m: Machine) => Shown(m, "", None);
    forall i | 0 <= i < |catalog|
      ensures keep(catalog[i])
    {
      Text.IncludesEmpty(Text.Lower(catalog[i].name));
    }
    Seqs.FilterAllOrNone(catalog, keep);
  }

  /** The "N machine(s) found" line. */
  function CountText(n: nat): (r: string)
    ensures r == "1 machine found" <==> n == 1
    ensures n != 1 ==> r == Text.DecimalString(n) + " machines found"
  {
    Text.DecimalString(n) + " machine" + (if n != 1 then "s" else "") + " found"
  }
}
