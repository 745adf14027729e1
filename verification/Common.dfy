/** Small datatypes shared by the models. */
module Common {

  datatype Option<+T> = None | Some(value: T)

  /** A namespaced Kubernetes name. */
  datatype NamespacedName = NamespacedName(namespace: string, name: string)
}
