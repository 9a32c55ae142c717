/** The paid-order webhook of lib/auth.ts: the product table, the decision whether and
    how much to grant, and the handler that calls `addCredits` and swallows its errors.
    There is no record of processed events, so a redelivered event grants again. */
module Billing {
  import opened Wrappers
  import opened UserTable
  import opened Users

  datatype ProductConfig = ProductConfig(name: string, credits: int, slug: string)

  const StarterPack := ProductConfig("Starter Pack", 60, "starter")
  const CreatorPack := ProductConfig("Creator Pack", 160, "creator")
  const ProPack := ProductConfig("Pro Pack", 360, "pro")

  /** The three product-id environment variables; an unset one is None. */
  datatype ProductEnv = ProductEnv(starter: Option<string>, creator: Option<string>, pro: Option<string>)

  /** The property name a computed key becomes: an unset variable yields the name "undefined". */
  function PropertyKey(v: Option<string>): string {
    match v
    case Some(s) => s
    case None => "undefined"
  }

  /** `PRODUCT_CONFIGS`: an object literal with computed keys, so when two
      environment ids coincide the entry written later wins. */
  function ProductConfigs(env: ProductEnv): (table: map<string, ProductConfig>)
    ensures table.Keys == {PropertyKey(env.starter), PropertyKey(env.creator), PropertyKey(env.pro)}
    ensures table[PropertyKey(env.pro)] == ProPack
    ensures PropertyKey(env.creator) != PropertyKey(env.pro) ==> table[PropertyKey(env.creator)] == CreatorPack
    ensures PropertyKey(env.starter) != PropertyKey(env.creator) && PropertyKey(env.starter) != PropertyKey(env.pro)
      ==> table[PropertyKey(env.starter)] == StarterPack
    ensures forall k :: k in table ==> table[k].credits == 60 || table[k].credits == 160 || table[k].credits == 360
  {
    map[PropertyKey(env.starter) := StarterPack][PropertyKey(env.creator) := CreatorPack][PropertyKey(env.pro) := ProPack]
  }

  /** With three distinct product ids the table is Starter 60, Creator 160, Pro 360. */
  lemma ProductCredits(env: ProductEnv)
    requires env.starter.Some? && env.creator.Some? && env.pro.Some?
    requires env.starter != env.creator && env.starter != env.pro && env.creator != env.pro
    ensures var table := ProductConfigs(env);
      && table[env.starter.value].credits == 60 && table[env.starter.value].slug == "starter"
      && table[env.creator.value].credits == 160 && table[env.creator.value].slug == "creator"
      && table[env.pro.value].credits == 360 && table[env.pro.value].slug == "pro"
  {
  }

  /** The fields of the order event the handler reads. */
  datatype OrderData = OrderData(paid: bool, status: string, productId: string, customerId: string, externalId: Option<string>)

  datatype Decision =
    | SkipNotPaid
    | SkipUnknownProduct(productId: string)
    | GrantCredits(userId: Option<string>, credits: int, polarCustomerId: string)

  /** The guards of `onOrderPaid`: skip an unpaid order, skip an unknown product, else grant. */
  function Decide(env: ProductEnv, data: OrderData): (d: Decision)
    ensures d.SkipNotPaid? <==> !data.paid || data.status != "paid"
    ensures d.SkipUnknownProduct? <==> data.paid && data.status == "paid" && data.productId !in ProductConfigs(env)
    ensures d.SkipUnknownProduct? ==> d.productId == data.productId
    ensures d.GrantCredits? ==>
      && data.productId in ProductConfigs(env)
      && d == GrantCredits(data.externalId, ProductConfigs(env)[data.productId].credits, data.customerId)
    ensures d.GrantCredits? ==> d.credits == 60 || d.credits == 160 || d.credits == 360
  {
    if !data.paid || data.status != "paid" then SkipNotPaid
    else if data.productId !in ProductConfigs(env) then SkipUnknownProduct(data.productId)
    else GrantCredits(data.externalId, ProductConfigs(env)[data.productId].credits, data.customerId)
  }

  /** Why the grant failed: `addCredits` refused a missing user id at argument
      validation, or threw while running. */
  datatype GrantError = MissingUserId | Mutation(error: Error)

  /** Which way the handler went. It returns nothing in every case: errors are caught. */
  datatype HandlerOutcome =
    | NotFullyPaid
    | UnknownProductId(productId: string)
    | Credited(userId: string, credits: int)
    | Caught(error: GrantError)

  /** `onOrderPaid` as a transition of the table. */
  function ReconcileOrderPaid(db: Db, env: ProductEnv, data: OrderData): (out: (HandlerOutcome, Db))
    requires WellFormed(db)
    ensures WellFormed(out.1)
    ensures (!data.paid || data.status != "paid") ==> out == (NotFullyPaid, db)
    ensures data.paid && data.status == "paid" && data.productId !in ProductConfigs(env)
      ==> out == (UnknownProductId(data.productId), db)
    ensures !out.0.Credited? ==> out.1 == db
    ensures out.0.Credited? <==>
      && data.paid && data.status == "paid" && data.productId in ProductConfigs(env) && data.externalId.Some?
      && GetUserByPolarCustomerId(db, data.customerId).Some?
    ensures out.0.Credited? ==>
      var doc := GetUserByPolarCustomerId(db, data.customerId).value;
      var amount := ProductConfigs(env)[data.productId].credits;
      && out.0 == Credited(data.externalId.value, amount)
      && OnlyChanged(db, out.1, doc.id)
      && out.1.users[doc.id] == doc.user.(credits := doc.user.credits + amount)
  {
    match Decide(env, data)
    case SkipNotPaid => (NotFullyPaid, db)
    case SkipUnknownProduct(p) => (UnknownProductId(p), db)
    case GrantCredits(userId, credits, customerId) =>
      if userId.None? then (Caught(MissingUserId), db)
      else
        var (r, db') := AddCredits(db, userId.value, credits, customerId);
        if r.Failure? then (Caught(Mutation(r.error)), db') else (Credited(userId.value, credits), db')
  }

  /** A grant whose customer id matches no user is caught and changes nothing. */
  lemma UnknownCustomerCaught(db: Db, env: ProductEnv, data: OrderData)
    requires WellFormed(db)
    requires data.paid && data.status == "paid" && data.productId in ProductConfigs(env) && data.externalId.Some?
    requires forall j :: j in db.users ==> db.users[j].polarCustomerId != Some(data.customerId)
    ensures ReconcileOrderPaid(db, env, data)
      == (Caught(Mutation(UserNotFoundWithPolarCustomerId(data.customerId))), db)
  {
  }

  /** No dedupe: delivering the same paid event twice grants its credits twice. */
  lemma ReplayGrantsTwice(db: Db, env: ProductEnv, data: OrderData)
    requires WellFormed(db)
    requires ReconcileOrderPaid(db, env, data).0.Credited?
    ensures
      var doc := GetUserByPolarCustomerId(db, data.customerId).value;
      var amount := ProductConfigs(env)[data.productId].credits;
      var db1 := ReconcileOrderPaid(db, env, data).1;
      var (second, db2) := ReconcileOrderPaid(db1, env, data);
      && second.Credited?
      && OnlyChanged(db, db2, doc.id)
      && db2.users[doc.id] == doc.user.(credits := doc.user.credits + 2 * amount)
  {
  }

  /** A worked example: a new account (10 credits) buys Starter (70), spends 5 (65),
      and a redelivery of the same paid event, which nothing recognises as a
      repeat, brings it to 125. */
  lemma StarterRedeliveryExample(env: ProductEnv, email: string, customer: string, authId: string)
    requires env.starter.Some?
    requires PropertyKey(env.starter) != PropertyKey(env.creator) && PropertyKey(env.starter) != PropertyKey(env.pro)
    ensures
      var (id, db0) := CreateUser(Db(map[], 0), NewUser(email, None, None, None, false, None, None, Some(customer)));
      var event := OrderData(true, "paid", env.starter.value, customer, Some(authId));
      var db1 := ReconcileOrderPaid(db0, env, event).1;
      var db2 := DeductCredits(db1, id, 5).1;
      var db3 := ReconcileOrderPaid(db2, env, event).1;
      && db0.users[id].credits == 10
      && db1.users[id].credits == 70
      && db2.users[id].credits == 65
      && db3.users[id].credits == 125
  {
  }

  /** `session.expiresIn` (and `updateAge`): thirty days, in seconds. */
  function SessionExpiresIn(): (seconds: nat)
    ensures seconds == 2592000
  {
    60 * 60 * 24 * 30
  }

  /** `onOrderPaid`: skip, or grant through the store; any error from the grant is caught. */
  method OnOrderPaid(store: UserStore, env: ProductEnv, data: OrderData) returns (outcome: HandlerOutcome)
    requires store.Valid()
    modifies store
    ensures store.Valid()
    ensures (outcome, store.State()) == ReconcileOrderPaid(old(store.State()), env, data)
  {
    if !data.paid || data.status != "paid" {
      return NotFullyPaid;
    }
    var productConfigs := ProductConfigs(env);
    if data.productId !in productConfigs {
      return UnknownProductId(data.productId);
    }
    var productConfig := productConfigs[data.productId];
    if data.externalId.None? {
      return Caught(MissingUserId);
    }
    var userId := data.externalId.value;
    var r := store.AddCredits(userId, productConfig.credits, data.customerId);
    if r.Failure? {
      return Caught(Mutation(r.error));
    }
    outcome := Credited(userId, productConfig.credits);
  }
}
