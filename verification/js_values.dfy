/** Values of the host language that the timing core depends on. */
module JsValues {

  /** A property that may hold `null` (or be `undefined`) instead of a value. */
  datatype Nullable<+T> = Null | Val(v: T)

  /** JavaScript truthiness of a numeric property: an absent or `null`
      property and the number 0 are all falsy, every other number is truthy. */
  predicate Truthy(x: Nullable<int>) {
    x.Val? && x.v != 0
  }
}
