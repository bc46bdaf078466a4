/** The result of a lookup that may find nothing. */
module Optional {

  datatype Maybe<T> = Nothing | Just(value: T)

}
