/** Shared vocabulary: optional values and the Python exceptions the layout code can raise. */
module Common {

  datatype Option<+T> = None | Some(value: T) {
    /** Python's `x or default` for a value that is either missing or present. */
    function GetOr(default: T): (r: T)
      ensures Some? ==> r == value
      ensures None? ==> r == default
    {
      match this
      case None => default
      case Some(v) => v
    }
  }

  /** The exceptions raised by the modelled code. */
  datatype Error =
    | ParseError        // "Unable to parse measurement"
    | ValueError        // float() of a malformed string, max() of an empty sequence
    | BaseNotSet        // "Base not set."
    | ZeroDivision      // ZeroDivisionError
    | TypeError         // arithmetic on None, len(None)
    | AttributeError    // a missing attribute
    | NotImplemented    // NotImplementedError

  datatype Result<+T> = Ok(value: T) | Err(error: Error) {
    predicate IsFailure() {
      Err?
    }

    function PropagateFailure<U>(): Result<U>
      requires Err?
    {
      Err(error)
    }

    function Extract(): T
      requires Ok?
    {
      value
    }

    /** The exception raised, if any. */
    function Failure(): (e: Option<Error>)
      ensures e.None? <==> Ok?
      ensures Err? ==> e == Some(error)
    {
      if Err? then Some(error) else None
    }
  }

  /** The first failure of a sequence of outcomes, if any. */
  function FirstFailure(fs: seq<Option<Error>>): (r: Option<Error>)
    ensures r.None? <==> forall i :: 0 <= i < |fs| ==> fs[i].None?
  {
    if fs == [] then None
    else if fs[0].Some? then fs[0]
    else
      var r := FirstFailure(fs[1..]);
      assert forall i :: 1 <= i < |fs| ==> fs[1..][i - 1] == fs[i];
      r
  }

  /** The first failure is the failure of the first outcome that is one. */
  lemma {:induction false} FirstFailureAt(fs: seq<Option<Error>>, i: nat)
    requires i < |fs| && fs[i].Some?
    requires forall j :: 0 <= j < i ==> fs[j].None?
    ensures FirstFailure(fs) == fs[i]
  {
    if i > 0 {
      assert fs[1..][i - 1] == fs[i];
      FirstFailureAt(fs[1..], i - 1);
    }
  }
}
