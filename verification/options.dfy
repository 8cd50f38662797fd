/** The optional-value wrapper used for the record's `?:` properties. */
module Options {

  /** `None` stands for a property that is absent (`undefined`) in the JavaScript object. */
  datatype Option<+T> = None | Some(value: T) {

    /** The carried value, or `default` when absent. */
    function GetOr(default: T): T
    {
      match this
      case Some(v) => v
      case None => default
    }
  }
}
