/** Types shared by the modules of this project. */
module Common {

  datatype Option<+T> = None | Some(value: T)

  /** An option of a task or an action: the id is mandatory, name and value may be absent. */
  datatype Opt = Opt(id: string, name: Option<string>, value: Option<string>)
}
