/** The optional value used across the model for SQL NULL, JavaScript null and missing rows. */
module Options {
  datatype Option<+T> = None | Some(value: T) {
    function GetOr(default: T): T {
      if Some? then value else default
    }
  }
}
