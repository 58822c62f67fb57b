/** The binding between the status filter and the `status` URL search parameter (`useTaskFilters.ts`). */
module TaskFilters {
  import opened Wrappers
  import opened Types

  /** The URL's search parameters; duplicate keys are not modelled. */
  type SearchParams = map<string, string>

  const StatusKey: string := "status"

  /** The initial filter: the `status` parameter when it names a status, `all` otherwise. */
  function ParseStatus(params: SearchParams): (s: TaskStatus)
    ensures s != All ==> StatusKey in params && params[StatusKey] == StatusName(s)
    ensures StatusKey in params && params[StatusKey] in {"all", "pending", "completed"} ==>
              StatusName(s) == params[StatusKey]
    ensures (StatusKey !in params || params[StatusKey] !in {"all", "pending", "completed"}) ==> s == All
  {
    if StatusKey in params && params[StatusKey] != "" && StatusFromName(params[StatusKey]).Some? then
      StatusFromName(params[StatusKey]).value
    else All
  }

  /** The write-back effect: `all` deletes the parameter, any other status sets it; no other key changes. */
  function WriteStatus(params: SearchParams, s: TaskStatus): (r: SearchParams)
    ensures StatusKey in r <==> s != All
    ensures s != All ==> r[StatusKey] == StatusName(s)
    ensures r.Keys - {StatusKey} == params.Keys - {StatusKey}
    ensures forall k | k in r && k != StatusKey :: k in params && r[k] == params[k]
  {
    if s == All then params - {StatusKey} else params[StatusKey := StatusName(s)]
  }

  /** Reading back what was written yields the written status. */
  lemma WriteThenParse(params: SearchParams, s: TaskStatus)
    ensures ParseStatus(WriteStatus(params, s)) == s
  {
  }

  /** Writing the same status twice is writing it once. */
  lemma WriteIdempotent(params: SearchParams, s: TaskStatus)
    ensures WriteStatus(WriteStatus(params, s), s) == WriteStatus(params, s)
  {
  }

  /** The hook's state: the filter and the URL parameters it has written. */
  datatype FilterState = FilterState(status: TaskStatus, params: SearchParams)

  /**
   * Mounting: parse the URL, then run the write-back effect once. A valid `status` is kept, any
   * other is removed, and no other parameter changes.
   */
  function Mount(params: SearchParams): (st: FilterState)
    ensures StatusKey in st.params <==> st.status != All
    ensures st.status != All ==> StatusKey in params && st.params[StatusKey] == params[StatusKey] == StatusName(st.status)
    ensures StatusKey in params && params[StatusKey] in {"all", "pending", "completed"} ==>
              StatusName(st.status) == params[StatusKey]
    ensures forall k | k != StatusKey :: (k in st.params <==> k in params)
    ensures forall k | k in st.params && k != StatusKey :: k in params && st.params[k] == params[k]
  {
    var s := ParseStatus(params);
    FilterState(s, WriteStatus(params, s))
  }

  /** `changeStatus` followed by the write-back effect. */
  function ChangeStatus(st: FilterState, s: TaskStatus): (r: FilterState)
    ensures r.status == s && ParseStatus(r.params) == s
    ensures forall k | k != StatusKey :: (k in r.params <==> k in st.params)
    ensures forall k | k in r.params && k != StatusKey :: k in st.params && r.params[k] == st.params[k]
  {
    WriteThenParse(st.params, s);
    FilterState(s, WriteStatus(st.params, s))
  }

  /** A `status` value naming no status is normalised away: the filter is `all` and the parameter is deleted. */
  lemma InvalidStatusNormalised(params: SearchParams)
    requires StatusKey in params && params[StatusKey] !in {"all", "pending", "completed"}
    ensures Mount(params).status == All
    ensures StatusKey !in Mount(params).params
  {
  }

  /** Reloading the page at the URL the hook wrote gives back the same state. */
  lemma MountIsStable(params: SearchParams)
    ensures Mount(Mount(params).params) == Mount(params)
  {
  }
}
