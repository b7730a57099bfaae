/** The record type shown on the concerns listing page and a small Option wrapper. */
module Records {

  /** One stored concern: backend identifier, category label, message body and
      creation timestamp, all kept as text exactly as the backend returns them. */
  datatype Inquietud = Inquietud(id: string, tema: string, mensaje: string, createdAt: string)

  /** A value that may be missing (`null`/`undefined` in the page). */
  datatype Option<+T> = None | Some(value: T) {
    /** The value, or `default` when it is missing (`x || default` on an object). */
    function GetOr(default: T): (r: T)
      ensures Some? ==> r == value
      ensures None? ==> r == default
    {
      match this
      case Some(v) => v
      case None => default
    }
  }
}
