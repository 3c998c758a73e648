/** The transient notifications (`react-hot-toast`) a handler raises. */
module Toasts {

  datatype Toast = SuccessToast(message: string) | ErrorToast(message: string)
}
