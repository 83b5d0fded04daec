/** A topic-keyed store (the pairing and session controllers): records by
    topic, together with the `topics` list the engine scans for membership. */
module TopicStore {
  import opened Wrappers
  import opened Types

  datatype Store<R> = Store(topics: seq<Topic>, records: map<Topic, R>) {

    /** The topic list has no repeats and lists exactly the stored topics. */
    ghost predicate Valid() {
      && (forall i, j | 0 <= i < j < |topics| :: topics[i] != topics[j])
      && (forall t :: t in records <==> t in topics)
    }

    /** `set(topic, record)`: store or overwrite the record of `t`. */
    function Set(t: Topic, r: R): (st: Store<R>)
      ensures st.records == records[t := r]
      ensures t in st.topics
      ensures forall u | u in topics :: u in st.topics
      ensures Valid() ==> st.Valid()
    {
      if t in topics then Store(topics, records[t := r])
      else Store(topics + [t], records[t := r])
    }

    /** `get(topic)`: the record, or NotFound when no record is stored. */
    function Get(t: Topic): (r: Result<R, EngineError>)
      ensures r.Success? <==> t in records
      ensures r.Success? ==> r.value == records[t]
      ensures r.Failure? ==> r.error == NotFound(t)
    {
      if t in records then Success(records[t]) else Failure(NotFound(t))
    }
  }

  function Empty<R>(): (st: Store<R>)
    ensures st.Valid() && st.records == map[]
  {
    Store([], map[])
  }

  /** `topics.includes(t)`: a front-to-back scan of the topic list. */
  method Includes(topics: seq<Topic>, t: Topic) returns (found: bool)
    ensures found <==> t in topics
  {
    var i := 0;
    while i < |topics|
      invariant 0 <= i <= |topics|
      invariant t !in topics[..i]
    {
      if topics[i] == t {
        return true;
      }
      assert topics[..i + 1] == topics[..i] + [topics[i]];
      i := i + 1;
    }
    assert topics[..i] == topics;
    return false;
  }

  /** Membership through the topic list agrees with the stored records. */
  method HasTopic<R>(st: Store<R>, t: Topic) returns (found: bool)
    requires st.Valid()
    ensures found <==> t in st.records
  {
    found := Includes(st.topics, t);
  }
}
