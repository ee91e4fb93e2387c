/** An optional value: used for a lookup that can miss and for a table cell
    that pandas marks as missing (NA). */
module Options {
  datatype Option<+T> = None | Some(value: T)
}
