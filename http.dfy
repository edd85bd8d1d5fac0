/** What a request handler raises. */
module Http {

  /** FastAPI's `HTTPException(status_code, detail)`, or any other Python exception,
      carried by its `str(e)` text. An exception of the second kind that escapes a
      handler is answered by the framework with a bare 500. */
  datatype Exception =
    | HTTPException(status: int, detail: string)
    | Raised(message: string)

  /** The handlers' closing clause
        except HTTPException: raise
        except Exception as e: raise HTTPException(status_code=500, detail=f"{prefix}{e}")
      An HTTP exception passes through untouched; anything else becomes a 500
      whose detail is the prefix followed by the exception text. */
  function Wrap(prefix: string, e: Exception): (r: Exception)
    ensures r.HTTPException?
    ensures e.HTTPException? ==> r == e
    ensures e.Raised? ==> r == HTTPException(500, prefix + e.message)
  {
    match e
    case HTTPException(_, _) => e
    case Raised(m) => HTTPException(500, prefix + m)
  }
}
