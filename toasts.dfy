/** The toast messages (`sonner`'s `toast.error`, `toast.warning`, `toast.success`)
    that the forms show. */
module Toasts {
  datatype Toast = ErrorToast(message: string) | WarningToast(message: string) | SuccessToast(message: string)
}
