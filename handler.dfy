/**
 * The field-less `Handler` facade: each of its methods forwards to the free
 * function of the same name in `Errobust`.
 */
module ErrobustHandler {
  import Errobust

  datatype Handler = Handler {

    function TryGetCode(err: Errobust.AnyError): (r: (int, Errobust.AnyError))
      ensures r == Errobust.TryGetCode(err)
    {
      Errobust.TryGetCode(err)
    }

    function GetCode(err: Errobust.AnyError): (c: int)
      ensures c == Errobust.GetCode(err)
    {
      Errobust.GetCode(err)
    }

    predicate IsConflict(err: Errobust.AnyError)
      ensures IsConflict(err) == Errobust.IsConflict(err)
    {
      Errobust.IsConflict(err)
    }

    predicate IsNotFound(err: Errobust.AnyError)
      ensures IsNotFound(err) == Errobust.IsNotFound(err)
    {
      Errobust.IsNotFound(err)
    }

    predicate IsUnhandled(err: Errobust.AnyError)
      ensures IsUnhandled(err) == Errobust.IsUnhandled(err)
    {
      Errobust.IsUnhandled(err)
    }
  }
}
