/** Graceful-shutdown accounting: which unfinished requests hold a count on
    the shared shutdown counter. */
module Accounting {

  /** The requests among `pending` (request to "served by a transient
      service") that were counted, because their service is not transient. */
  function NonTransient(pending: map<nat, bool>): set<nat> {
    set id | id in pending && !pending[id]
  }

  /** Dispatching a new request adds one count exactly when its service is
      not transient. */
  lemma NonTransientAdd(pending: map<nat, bool>, id: nat, isTransient: bool)
    requires id !in pending
    ensures NonTransient(pending[id := isTransient])
            == if isTransient then NonTransient(pending) else NonTransient(pending) + {id}
    ensures |NonTransient(pending[id := isTransient])|
            == |NonTransient(pending)| + (if isTransient then 0 else 1)
  {
    var after := pending[id := isTransient];
    if isTransient {
      assert NonTransient(after) == NonTransient(pending);
    } else {
      assert NonTransient(after) == NonTransient(pending) + {id};
      assert id !in NonTransient(pending);
    }
  }

  /** Completing the write of a request takes away its count exactly when
      its service is not transient. */
  lemma NonTransientRemove(pending: map<nat, bool>, id: nat)
    requires id in pending
    ensures NonTransient(pending - {id})
            == if pending[id] then NonTransient(pending) else NonTransient(pending) - {id}
    ensures |NonTransient(pending - {id})|
            == |NonTransient(pending)| - (if pending[id] then 0 else 1)
  {
    var after := pending - {id};
    if pending[id] {
      assert NonTransient(after) == NonTransient(pending);
    } else {
      assert NonTransient(after) == NonTransient(pending) - {id};
      assert id in NonTransient(pending);
    }
  }

  /** With nothing in flight no count is held: the counter has balanced. */
  lemma NothingPendingNothingCounted(pending: map<nat, bool>)
    requires pending.Keys == {}
    ensures |NonTransient(pending)| == 0
  {
    assert NonTransient(pending) == {};
  }
}
