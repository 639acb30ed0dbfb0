/**
 * The occupational classification catalog the schemas consult. Its data
 * module is not part of this model: the catalog is a parameter, given by the
 * list `getOccupationalGroups()` returns and by the lookup
 * `getSeriesByGroupCode(code)`, a total function that answers every code.
 */
module OpmCatalog {

  /** A job family, for instance "2200" / "Information Technology". */
  datatype OccupationalGroup = OccupationalGroup(code: string, title: string)

  /** A series, listed under exactly one job family. */
  datatype SeriesEntry = SeriesEntry(code: string, title: string, groupCode: string)

  datatype Catalog = Catalog(
    groups: seq<OccupationalGroup>,
    seriesByGroup: string -> seq<SeriesEntry>)

  /**
   * What the catalog data is expected to satisfy: an unknown family has no
   * series, every series is listed under the family its own record names,
   * and no series code is listed under two families.
   */
  ghost predicate WellFormed(cat: Catalog)
  {
    (forall code :: code !in JobFamilyCodes(cat) ==> cat.seriesByGroup(code) == []) &&
    (forall code, e :: e in cat.seriesByGroup(code) ==> e.groupCode == code) &&
    (forall g1, g2, e1, e2 ::
      e1 in cat.seriesByGroup(g1) && e2 in cat.seriesByGroup(g2) && e1.code == e2.code ==> g1 == g2)
  }

  /** The code of each item, in order (the `.map(item => item.code)` of both helpers). */
  function CodesOf<T>(items: seq<T>, code: T -> string): (codes: seq<string>)
    ensures |codes| == |items|
    ensures forall i :: 0 <= i < |items| ==> codes[i] == code(items[i])
  {
    if items == [] then [] else [code(items[0])] + CodesOf(items[1..], code)
  }

  /**
   * `getAllJobFamilyCodes`: the code of every job family, in catalog order,
   * so a code is listed exactly when some group carries it.
   */
  function JobFamilyCodes(cat: Catalog): (codes: seq<string>)
    ensures |codes| == |cat.groups|
    ensures forall i :: 0 <= i < |codes| ==> codes[i] == cat.groups[i].code
    ensures forall code :: code in codes <==> exists g :: g in cat.groups && g.code == code
  {
    var codes := CodesOf(cat.groups, (g: OccupationalGroup) => g.code);
    assert forall i :: 0 <= i < |codes| ==> cat.groups[i] in cat.groups;
    codes
  }

  /**
   * `getAllSeriesCodes(jobFamily)`: the codes of the series listed under
   * `jobFamily`, in order, so a code is listed exactly when some series
   * listed there carries it.
   */
  function SeriesCodesFor(cat: Catalog, jobFamily: string): (codes: seq<string>)
    ensures |codes| == |cat.seriesByGroup(jobFamily)|
    ensures forall i :: 0 <= i < |codes| ==> codes[i] == cat.seriesByGroup(jobFamily)[i].code
    ensures forall code :: code in codes <==>
      exists e :: e in cat.seriesByGroup(jobFamily) && e.code == code
  {
    var entries := cat.seriesByGroup(jobFamily);
    var codes := CodesOf(entries, (e: SeriesEntry) => e.code);
    assert forall i :: 0 <= i < |codes| ==> entries[i] in entries;
    codes
  }

  /** A family the catalog does not know has no valid series, so the lookup never fails. */
  lemma UnknownFamilyHasNoSeries(cat: Catalog, jobFamily: string)
    requires WellFormed(cat)
    requires jobFamily !in JobFamilyCodes(cat)
    ensures SeriesCodesFor(cat, jobFamily) == []
  {
  }

  /**
   * Every series listed under a family is accepted under that family and
   * under no other one.
   */
  lemma SeriesBelongsToOneFamily(cat: Catalog, jobFamily: string, e: SeriesEntry, other: string)
    requires WellFormed(cat)
    requires e in cat.seriesByGroup(jobFamily)
    ensures e.code in SeriesCodesFor(cat, jobFamily)
    ensures other != jobFamily ==> e.code !in SeriesCodesFor(cat, other)
  {
  }
}
