/** Small vocabulary shared by the other modules. */
module Common {

  /** A Go pointer, map or slice that may be nil. */
  datatype Option<+T> = None | Some(value: T) {
    function GetOr(default: T): T {
      match this
      case Some(v) => v
      case None => default
    }
  }

  /** A Go `(value, error)` pair of which exactly one half is meaningful. */
  datatype Result<+T, +E> = Ok(value: T) | Err(error: E)

  /** What the SQL graph library can report about a write. */
  datatype SqlError = NotFound | Constraint(msg: string) | Other(msg: string)

  /** The errors the engine hands to its callers. */
  datatype EntError =
    | ValidationError(field: string)
    | NotFoundError(entity: string)
    | NotSingularError(entity: string)
    | NotLoadedError(edge: string)
    | ConstraintError(msg: string)
    | Plain(msg: string)

  /** How a failed update is reported: a missing row or a broken constraint gets its own type. */
  function Reported(e: SqlError, entity: string): EntError {
    match e
    case NotFound => NotFoundError(entity)
    case Constraint(msg) => ConstraintError(msg)
    case Other(msg) => Plain(msg)
  }

  /** How a failed insert is reported: only a broken constraint gets its own type. */
  function ReportedInsert(e: SqlError): EntError {
    match e
    case NotFound => Plain("not found")
    case Constraint(msg) => ConstraintError(msg)
    case Other(msg) => Plain(msg)
  }

  function ToSet<T>(s: seq<T>): set<T> {
    set x | x in s
  }

  ghost predicate NoDuplicates<T>(s: seq<T>) {
    forall i, j :: 0 <= i < j < |s| ==> s[i] != s[j]
  }

  lemma ToSetAppend<T>(s: seq<T>, t: seq<T>)
    ensures ToSet(s + t) == ToSet(s) + ToSet(t)
  {
    forall x ensures x in ToSet(s + t) <==> x in ToSet(s) + ToSet(t) {
    }
  }

  lemma OneMoreDistinct<T>(s: seq<T>, x: T)
    requires NoDuplicates(s) && x !in ToSet(s)
    ensures NoDuplicates(s + [x]) && ToSet(s + [x]) == ToSet(s) + {x}
  {
    ToSetAppend(s, [x]);
  }

  /** Ranging over a Go map: every key once, in an order nobody may rely on. */
  method RangeKeys<K(==)>(keys: set<K>) returns (ids: seq<K>)
    ensures ToSet(ids) == keys
    ensures NoDuplicates(ids)
    ensures |ids| == |keys|
  {
    ids := [];
    var rest := keys;
    while rest != {}
      invariant ToSet(ids) + rest == keys
      invariant ToSet(ids) !! rest
      invariant NoDuplicates(ids)
      invariant |ids| + |rest| == |keys|
      decreases |rest|
    {
      var k :| k in rest;
      OneMoreDistinct(ids, k);
      ids := ids + [k];
      rest := rest - {k};
    }
  }
}
