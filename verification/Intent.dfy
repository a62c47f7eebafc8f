/** The declarative Intent record. */
module Intent {
  import PyText

  datatype Intent = Intent(
    goal: string,
    requirements: seq<string>,
    constraints: seq<string>,
    acceptance: seq<string>,
    title: string,
    intentId: string,
    provenance: map<string, string>)
  {
    /** What `Intent.__post_init__` accepts. */
    predicate Valid() {
      && !PyText.Blank(goal)
      && forall item <- requirements + constraints + acceptance :: !PyText.Blank(item)
    }
  }
}
