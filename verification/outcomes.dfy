/** Error values and failure-carrying results shared by every component.

    Go functions in the modelled system return `error` values built with the
    helpers of the errors library the system uses: `AddContext` wraps an error
    with a message, and `Compose` gathers several possibly-nil errors into
    one.  That library is not part of this model; its two helpers are
    modelled here by their documented behaviour.
 */
module Outcomes {

  datatype Option<+T> = None | Some(value: T)

  /** A Go `error` that is not nil. */
  datatype Error =
    | Failure(msg: string)                // an error produced by a collaborator
    | Context(msg: string, cause: Error)  // `errors.AddContext(cause, msg)`
    | Composite(errs: seq<Error>)         // `errors.Compose(...)` of the non-nil arguments

  datatype Result<+T> = Ok(value: T) | Err(error: Error)

  /** What one argument of `Compose` contributes: its error, or nothing. */
  function Kept(e: Option<Error>): (r: seq<Error>)
    ensures |r| <= 1 && (r == [] <==> e.None?)
  {
    if e.Some? then [e.value] else []
  }

  /** The non-nil errors among `errs`, in argument order. */
  function Present(errs: seq<Option<Error>>): (r: seq<Error>)
    ensures |r| <= |errs|
    ensures forall e :: e in r <==> Some(e) in errs
  {
    if errs == [] then [] else Kept(errs[0]) + Present(errs[1..])
  }

  /** The present errors of two argument lists, one after the other. */
  lemma {:induction false} PresentAppend(a: seq<Option<Error>>, b: seq<Option<Error>>)
    ensures Present(a + b) == Present(a) + Present(b)
    decreases |a|
  {
    if a == [] {
      assert a + b == b;
    } else {
      assert (a + b)[0] == a[0] && (a + b)[1..] == a[1..] + b;
      PresentAppend(a[1..], b);
    }
  }

  /** Each argument puts its error, if any, behind those of the arguments
      before it. */
  lemma {:induction false} PresentLast(errs: seq<Option<Error>>)
    requires errs != []
    ensures Present(errs) == Present(errs[..|errs| - 1]) + Kept(errs[|errs| - 1])
  {
    var init, last := errs[..|errs| - 1], errs[|errs| - 1];
    assert errs == init + [last];
    PresentAppend(init, [last]);
    assert [last][1..] == [];
  }

  /** `errors.Compose`: nil arguments are dropped; nothing left gives nil;
      otherwise one composite error holding the others in argument order. */
  function Compose(errs: seq<Option<Error>>): (r: Option<Error>)
    ensures r.None? <==> forall i :: 0 <= i < |errs| ==> errs[i].None?
    ensures r.Some? ==> r.value == Composite(Present(errs)) && |r.value.errs| >= 1
    ensures forall e :: Some(e) in errs ==> r.Some? && e in r.value.errs
  {
    var present := Present(errs);
    if present == [] then None
    else
      assert Some(present[0]) in errs;
      Some(Composite(present))
  }

  /** Composing an error with a possibly-nil second one keeps the first,
      then the second if there is one. */
  lemma ComposeTwo(first: Error, second: Option<Error>)
    ensures Compose([Some(first), second]) == Some(Composite([first] + Kept(second)))
  {
    var errs := [Some(first), second];
    assert errs[1..] == [second] && errs[1..][1..] == [];
    assert Present(errs) == [first] + Kept(second);
  }
}
