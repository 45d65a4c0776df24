/** What both applications share about a request: the signed session, the
    kinds of response a handler ends with, and the authentication gate. */
module Web {
  import opened Common
  import opened Cart
  import opened Checkout

  /** The session keys the handlers use: the signed-in email and the cart. */
  datatype Session = Session(user: Option<string>, cart: Option<seq<CartItem>>)

  /** How a handler ends. Flash messages and templates are not modelled. */
  datatype Response =
    | RedirectLogin
    | RedirectMain
    | RedirectRegister
    | RedirectCart
    | RedirectBack
    | ShowCart(items: seq<CartItem>, total: int)
    | ToPayment(lineItems: seq<LineItem>, customerEmail: string)
    | ShowSuccess

  /** The decision of a gate placed in front of a handler: run it, or answer
      with this response instead. */
  datatype Gate = Proceed | Deny(response: Response)

  /** The outcome of a registration attempt. */
  datatype Registration = Created | WeakPassword | Duplicate

  /** The authentication gate: the handler runs only for a session with a
      signed-in user, anyone else is sent to the login page. */
  function LoginRequired(s: Session): (g: Gate)
    ensures g.Proceed? <==> s.user.Some?
    ensures g.Deny? ==> g.response == RedirectLogin
  {
    if s.user.None? then Deny(RedirectLogin) else Proceed
  }

  /** Logging out forgets the signed-in user and nothing else: in
      particular the cart stays in the session. Signed in or not, the
      answer is the redirect home. */
  function Logout(s: Session): (r: (Session, Response))
    ensures r.0.user.None?
    ensures r.0.cart == s.cart
    ensures r.1 == RedirectMain
    ensures LoginRequired(r.0) == Deny(RedirectLogin)
  {
    (s.(user := None), RedirectMain)
  }
}
