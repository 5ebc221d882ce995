/** An optional value, used where the animation can run out of random draws. */
module Options {

  datatype Option<+T> = None | Some(value: T)
}
