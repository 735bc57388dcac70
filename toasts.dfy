/** A toast notification as the components hand it to `toast(...)`: a title,
    a description and whether the "destructive" variant is asked for. How the
    toast is displayed is not part of this model. */
module Toasts {

  datatype Toast = Toast(title: string, description: string, destructive: bool)
}
