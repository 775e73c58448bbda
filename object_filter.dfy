/** The object filter of the address builder: checkFilteredObject and the
    component filter checkFilteredComp. */
module ObjectFilter {
  import opened Scene

  datatype ObjectFilterMode = All | Include | Exclude

  /** The inspector settings objectFilterMode and filteredObjects. */
  datatype Filter = Filter(mode: ObjectFilterMode, filteredObjects: seq<ObjId>)

  /** checkFilteredObject: filteredObjects.Contains compares references, so
      an object is in the list when its identity is. */
  function CheckFilteredObject(f: Filter, go: Obj): (admitted: bool)
    ensures f.mode == All ==> admitted
    ensures f.mode == Include ==> (admitted <==> go.id in f.filteredObjects)
    ensures f.mode == Exclude ==> (admitted <==> go.id !in f.filteredObjects)
  {
    f.mode == All
    || (f.mode == Include && go.id in f.filteredObjects)
    || (f.mode == Exclude && go.id !in f.filteredObjects)
  }

  /** checkFilteredComp admits every component type. */
  function CheckFilteredComp(typeName: string): bool
  {
    true
  }

  /** For one list, Include and Exclude admit complementary sets of objects. */
  lemma IncludeExcludeComplementary(filtered: seq<ObjId>, go: Obj)
    ensures CheckFilteredObject(Filter(Include, filtered), go)
         != CheckFilteredObject(Filter(Exclude, filtered), go)
  {
  }
}
