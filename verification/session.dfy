/**
 * The per-visitor session and the routes that change it: adding an item to
 * the cart, logging in against the customer map, logging out, and the
 * checkout stub.
 */
module Sessions {
  import opened Wrappers
  import Customers

  /** What a login attempt reports to the visitor. */
  datatype LoginOutcome = LoginSuccessful | IncorrectPassword | NoSuchEmail

  /** What a logout reports: done, or KeyError because nobody was logged in. */
  datatype LogoutOutcome = LogoutSuccessful | KeyError

  /**
   * The three-way decision of a login: the submitted email must be a key of
   * the customer map, and the stored password must equal the submitted one
   * exactly. A form field that was not submitted is None.
   */
  function Authenticate(customerInfo: map<string, Customers.Customer>, email: Option<string>,
                        password: Option<string>): (r: LoginOutcome)
    ensures r == NoSuchEmail <==> email.None? || email.value !in customerInfo
    ensures r == IncorrectPassword <==>
              email.Some? && email.value in customerInfo && password != Some(customerInfo[email.value].password)
    ensures r == LoginSuccessful <==>
              email.Some? && email.value in customerInfo && password == Some(customerInfo[email.value].password)
  {
    if email.Some? && email.value in customerInfo then
      var customer := Customers.GetByEmail(customerInfo, email.value).value;
      if Some(customer.password) == password then LoginSuccessful else IncorrectPassword
    else
      NoSuchEmail
  }

  /**
   * A visitor's session: the email of the logged-in customer, if any, and
   * the ids put in the cart, repeats included. A cart that was never
   * created is the empty cart.
   */
  class Session {
    var loggedInEmail: Option<string>
    var cart: seq<int>

    /** The logged-in email, when there is one, belongs to a stored customer. */
    ghost predicate KnownIdentity(customerInfo: map<string, Customers.Customer>)
      reads this
    {
      loggedInEmail.Some? ==> loggedInEmail.value in customerInfo
    }

    /** A fresh session: nobody logged in, an empty cart. */
    constructor ()
      ensures loggedInEmail == None && cart == []
    {
      loggedInEmail := None;
      cart := [];
    }

    /** add_to_cart: one more unit of `id` at the end of the cart. */
    method AddToCart(id: int)
      modifies this
      ensures cart == old(cart) + [id]
      ensures loggedInEmail == old(loggedInEmail)
    {
      if cart != [] {
        cart := cart + [id];
      } else {
        cart := [id];
      }
    }

    /**
     * process_login: on success the submitted email becomes the logged-in
     * one; on either failure the session is left as it was. The cart is
     * never touched.
     */
    method ProcessLogin(customerInfo: map<string, Customers.Customer>, email: Option<string>,
                        password: Option<string>) returns (outcome: LoginOutcome)
      modifies this
      ensures outcome == Authenticate(customerInfo, email, password)
      ensures outcome == LoginSuccessful ==> loggedInEmail == email && KnownIdentity(customerInfo)
      ensures outcome != LoginSuccessful ==> loggedInEmail == old(loggedInEmail)
      ensures cart == old(cart)
      ensures old(KnownIdentity(customerInfo)) ==> KnownIdentity(customerInfo)
    {
      if email.Some? && email.value in customerInfo {
        var customer := Customers.GetByEmail(customerInfo, email.value).value;
        if Some(customer.password) == password {
          loggedInEmail := email;
          outcome := LoginSuccessful;
        } else {
          outcome := IncorrectPassword;
        }
      } else {
        outcome := NoSuchEmail;
      }
    }

    /**
     * process_logout: removes the logged-in email; with nobody logged in the
     * removal raises KeyError. Either way nobody is logged in afterwards and
     * the cart is kept.
     */
    method ProcessLogout() returns (outcome: LogoutOutcome)
      modifies this
      ensures outcome == LogoutSuccessful <==> old(loggedInEmail).Some?
      ensures loggedInEmail == None
      ensures cart == old(cart)
    {
      if loggedInEmail.None? {
        return KeyError;
      }
      loggedInEmail := None;
      outcome := LogoutSuccessful;
    }

    /** checkout: only a notice; the session is left exactly as it was. */
    method Checkout()
      ensures loggedInEmail == old(loggedInEmail) && cart == old(cart)
    {
    }
  }
}
