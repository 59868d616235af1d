/** An optional value: used for the toast keys a `toast({...})` call may leave out. */
module Optional {

  datatype Option<T> = None | Some(value: T)
}
