/**
 * Notifications shared by both pages. A page never manages a toast's
 * lifetime; it only emits one, so each page keeps an append-only log.
 */
module Toasts {

  /** The default presentation, or `variant: "destructive"`. */
  datatype Kind = Info | Destructive

  /** One emitted notification. */
  datatype Toast = Toast(kind: Kind, title: string, description: string)
}
