/** The port allocator both web services share: one document in the `ports`
    collection holds the last port handed out. */
module Ports {
  import opened Wrappers

  /** The port handed out when the collection is still empty. */
  const FIRST_PORT := 8000

  /** The port one call hands out, given the stored document. */
  function NextPort(doc: Option<int>): int {
    match doc
    case None => FIRST_PORT
    case Some(p) => p + 1
  }

  /** The ports n successive calls hand out, starting from `doc`. */
  function Issued(doc: Option<int>, n: nat): (ports: seq<int>)
    ensures |ports| == n
    decreases n
  {
    if n == 0 then [] else [NextPort(doc)] + Issued(Some(NextPort(doc)), n - 1)
  }

  /** The stored document after n successive calls. */
  function StoredAfter(doc: Option<int>, n: nat): Option<int>
    decreases n
  {
    if n == 0 then doc else StoredAfter(Some(NextPort(doc)), n - 1)
  }

  /** After at least one call the stored value is the last port handed out. */
  lemma {:induction false} StoredIsLastIssued(doc: Option<int>, n: nat)
    requires n > 0
    ensures StoredAfter(doc, n) == Some(Issued(doc, n)[n - 1])
    decreases n
  {
    if n > 1 {
      StoredIsLastIssued(Some(NextPort(doc)), n - 1);
    }
  }

  /** Every port handed out lies above the stored one, and the first call
      on an empty collection hands out FIRST_PORT. */
  lemma {:induction false} IssuedAbove(doc: Option<int>, n: nat)
    ensures forall i :: 0 <= i < n && doc.Some? ==> Issued(doc, n)[i] > doc.value
    ensures n > 0 && doc.None? ==> Issued(doc, n)[0] == FIRST_PORT
    decreases n
  {
    if n > 0 {
      IssuedAbove(Some(NextPort(doc)), n - 1);
    }
  }

  /** Successive ports strictly increase, so no port is handed out twice. */
  lemma {:induction false} IssuedIncreasing(doc: Option<int>, n: nat)
    ensures forall i, j :: 0 <= i < j < n ==> Issued(doc, n)[i] < Issued(doc, n)[j]
    decreases n
  {
    if n > 0 {
      var rest := Issued(Some(NextPort(doc)), n - 1);
      IssuedIncreasing(Some(NextPort(doc)), n - 1);
      IssuedAbove(Some(NextPort(doc)), n - 1);
      forall i, j | 0 <= i < j < n
        ensures Issued(doc, n)[i] < Issued(doc, n)[j]
      {
        assert Issued(doc, n)[j] == rest[j - 1];
        if i > 0 {
          assert Issued(doc, n)[i] == rest[i - 1];
        }
      }
    }
  }

  /** The `ports` collection. */
  class PortStore {
    /** The stored `{'port': p}` document, if any. */
    var doc: Option<int>

    constructor(doc0: Option<int>)
      ensures doc == doc0
    {
      doc := doc0;
    }

    /** get_increment_port: insert FIRST_PORT into an empty collection, or
        bump the stored port by one; return the stored value. */
    method GetIncrementPort() returns (port: int)
      modifies this
      ensures port == Issued(old(doc), 1)[0]
      ensures doc == StoredAfter(old(doc), 1) == Some(port)
      ensures old(doc).None? ==> port == FIRST_PORT
      ensures old(doc).Some? ==> port > old(doc).value
    {
      match doc {
        case None =>
          port := FIRST_PORT;
          doc := Some(port);
        case Some(p) =>
          doc := Some(p + 1);
          port := p + 1;
      }
    }
  }
}
