/**
 * The subscription side of the service: the plan catalogue and the checks
 * of `create_checkout`, the record transitions driven by the payment
 * provider's webhook events, and the subscription-status query with its
 * reconciliation against the provider. The provider's own calls (session
 * creation, signature verification, `Subscription.retrieve`) are replaced by
 * their outcomes, given as parameters.
 */
module Payments {

  import opened Wrappers
  import opened Http
  import opened Validation
  import opened Store

  // ---------------------------------------------------------------------------
  // Plans and checkout
  // ---------------------------------------------------------------------------

  /** A price in cents, its currency and its billing interval. */
  datatype Plan = Plan(amount: nat, currency: string, interval: string)

  const PlanPrices: map<string, Plan> := map[
    "monthly" := Plan(1499, "eur", "month"),
    "three_months" := Plan(3897, "eur", "month"),
    "yearly" := Plan(11988, "eur", "year")
  ]

  /**
   * The checks of `create_checkout` before the session is created: the user
   * id and the plan the session is for, or the error answer.
   */
  function CheckoutPlan(dbConfigured: bool, payload: Payload): (r: Result<(string, Plan), ErrorKind>)
    ensures r.Success? ==> ValidateUserId(Str(r.value.0)) && r.value.1 in PlanPrices.Values
    ensures r.Failure? ==> r.error in {DatabaseNotConfigured, ErrorKind.NotJson, InternalError, UserIdRequired, InvalidUserId, InvalidPlan}
  {
    if !dbConfigured then Failure(DatabaseNotConfigured)
    else if payload.NotJson? then Failure(ErrorKind.NotJson)
    else if payload.body.NonObject? then Failure(InternalError)  // `.get` on null, a list or a scalar
    else
      var fields := payload.body.fields;
      var userId := Get(fields, "userId", Null);
      var planId := Get(fields, "planId", Str("monthly"));
      if !Truthy(userId) then Failure(UserIdRequired)
      else if !ValidateUserId(userId) then Failure(InvalidUserId)
      else if planId.Container? then Failure(InternalError)  // a list or an object is unhashable
      else if !(planId.Str? && planId.s in PlanPrices) then Failure(InvalidPlan)
      else Success((userId.s, PlanPrices[planId.s]))
  }

  /**
   * Checkout proceeds exactly for a JSON object with a valid user id and
   * either no `planId` (the monthly plan) or the name of one of the three
   * plans; the plan is the one named.
   */
  lemma CheckoutPlanIff(dbConfigured: bool, payload: Payload)
    ensures CheckoutPlan(dbConfigured, payload).Success? <==>
            && dbConfigured && payload.Json? && payload.body.Object?
            && ValidateUserId(Get(payload.body.fields, "userId", Null))
            && ("planId" in payload.body.fields ==>
                  payload.body.fields["planId"].Str? && payload.body.fields["planId"].s in PlanPrices)
    ensures CheckoutPlan(dbConfigured, payload).Success? ==>
            CheckoutPlan(dbConfigured, payload).value.1 ==
              PlanPrices[if "planId" in payload.body.fields then payload.body.fields["planId"].s else "monthly"]
  {
  }

  // ---------------------------------------------------------------------------
  // Webhook
  // ---------------------------------------------------------------------------

  /** The fields of a completed checkout session the handler reads. */
  datatype Session = Session(
    clientReferenceId: Option<string>,
    metadataUserId: Option<string>,
    metadataPlanId: Option<string>,
    subscription: Option<string>,
    customer: Option<string>)

  datatype WebhookEvent =
    | CheckoutCompleted(session: Session)
    | SubscriptionUpdated(id: Option<string>, providerStatus: Option<string>)
    | SubscriptionDeleted(id: Option<string>)
    | OtherEvent

  /** What the provider's event verification makes of the request. */
  datatype Delivery = MalformedPayload | BadSignature | Verified(event: WebhookEvent)

  datatype WebhookResponse = Acknowledged | WebhookFailed(error: ErrorKind)

  /** Python truthiness of an optional string. */
  predicate Present(s: Option<string>) {
    s.Some? && s.value != []
  }

  /** `client_reference_id or metadata.get('user_id')`. */
  function CheckoutUserId(s: Session): (u: Option<string>)
    ensures Present(s.clientReferenceId) ==> u == s.clientReferenceId
    ensures !Present(s.clientReferenceId) ==> u == s.metadataUserId
    ensures Present(u) <==> Present(s.clientReferenceId) || Present(s.metadataUserId)
  {
    if Present(s.clientReferenceId) then s.clientReferenceId else s.metadataUserId
  }

  /** The record a completed checkout writes: active, on the plan of the session's metadata. */
  function CheckoutRecord(s: Session, now: int): (rec: SubRecord)
    ensures KnownStatus(rec) && rec.status == Some("active")
    ensures rec.planId == s.metadataPlanId || (s.metadataPlanId.None? && rec.planId == Some("monthly"))
  {
    SubRecord(s.subscription, s.customer, Some("active"), Some(s.metadataPlanId.GetOr("monthly")), Some(now), Some(now))
  }

  /** The status an update event writes. */
  function UpdatedStatus(providerStatus: Option<string>): (status: string)
    ensures status == "active" <==> providerStatus == Some("active")
    ensures status == "active" || status == "inactive"
  {
    if providerStatus == Some("active") then "active" else "inactive"
  }

  /** The status every record has: the three values the handlers write. */
  predicate KnownStatus(r: SubRecord) {
    r.status in {Some("active"), Some("inactive"), Some("cancelled")}
  }

  predicate AllKnownStatuses(subs: map<string, SubRecord>) {
    forall k :: k in subs ==> KnownStatus(subs[k])
  }

  /** Whether handling the event reads or writes the subscriptions. */
  predicate UsesStore(delivery: Delivery) {
    && delivery.Verified?
    && match delivery.event
       case CheckoutCompleted(s) => Present(CheckoutUserId(s))
       case SubscriptionUpdated(_, _) => true
       case SubscriptionDeleted(_) => true
       case OtherEvent => false
  }

  /**
   * The answer: 400 for a request the verification refuses; 500 when the
   * event needs the store and the store is missing or its call raises,
   * since the handler catches neither; otherwise the acknowledgement.
   */
  function WebhookAnswer(dbConfigured: bool, storeFails: bool, delivery: Delivery): (r: WebhookResponse)
    ensures r == WebhookFailed(InternalError) <==> UsesStore(delivery) && (!dbConfigured || storeFails)
    ensures r.Acknowledged? <==> delivery.Verified? && !(UsesStore(delivery) && (!dbConfigured || storeFails))
  {
    match delivery
    case MalformedPayload => WebhookFailed(InvalidPayload)
    case BadSignature => WebhookFailed(InvalidSignature)
    case Verified(_) => if UsesStore(delivery) && (!dbConfigured || storeFails) then WebhookFailed(InternalError) else Acknowledged
  }

  /**
   * `subs` becomes `subs'` when the record with subscription id `id`, if
   * any, gets `status`; a record is chosen when several share the id.
   */
  ghost predicate StatusSetById(subs: map<string, SubRecord>, subs': map<string, SubRecord>, id: Option<string>, status: string, now: int) {
    if exists k :: k in subs && subs[k].subscriptionId == id then
      exists k :: k in subs && subs[k].subscriptionId == id &&
        subs' == subs[k := subs[k].(status := Some(status), updatedAt := Some(now))]
    else subs' == subs
  }

  /** How the subscriptions change for an event; nothing changes on an error answer, and no record is ever removed. */
  ghost predicate WebhookEffect(subs: map<string, SubRecord>, subs': map<string, SubRecord>, dbConfigured: bool, storeFails: bool, delivery: Delivery, now: int)
    ensures WebhookEffect(subs, subs', dbConfigured, storeFails, delivery, now) ==> subs.Keys <= subs'.Keys
  {
    if WebhookAnswer(dbConfigured, storeFails, delivery).WebhookFailed? then subs' == subs
    else match delivery.event
      case CheckoutCompleted(s) =>
        if Present(CheckoutUserId(s)) then subs' == subs[CheckoutUserId(s).value := CheckoutRecord(s, now)]
        else subs' == subs
      case SubscriptionUpdated(id, providerStatus) => StatusSetById(subs, subs', id, UpdatedStatus(providerStatus), now)
      case SubscriptionDeleted(id) => StatusSetById(subs, subs', id, "cancelled", now)
      case OtherEvent => subs' == subs
  }

  method SetStatusById(db: Database, id: Option<string>, status: string, now: int)
    modifies db
    ensures StatusSetById(old(db.subscriptions), db.subscriptions, id, status, now)
    ensures db.chats == old(db.chats)
  {
    var key := db.FindBySubscriptionId(id);
    if key.Some? {
      db.SetStatus(key.value, status, now);
    }
  }

  /**
   * `stripe_webhook` after the provider has verified (or refused) the
   * request. `storeFails` says whether the store call the event needs (the
   * write of a checkout, the query and update of a status event) raises;
   * such a call changes nothing.
   */
  method Webhook(db: Database, dbConfigured: bool, storeFails: bool, delivery: Delivery, now: int) returns (response: WebhookResponse)
    modifies db
    ensures response == WebhookAnswer(dbConfigured, storeFails, delivery)
    ensures WebhookEffect(old(db.subscriptions), db.subscriptions, dbConfigured, storeFails, delivery, now)
    ensures db.chats == old(db.chats)
  {
    match delivery {
      case MalformedPayload => return WebhookFailed(InvalidPayload);
      case BadSignature => return WebhookFailed(InvalidSignature);
      case Verified(event) =>
        match event {
          case CheckoutCompleted(s) =>
            var userId := CheckoutUserId(s);
            if Present(userId) {
              if !dbConfigured || storeFails {
                return WebhookFailed(InternalError);
              }
              db.Put(userId.value, CheckoutRecord(s, now));
            }
          case SubscriptionUpdated(id, providerStatus) =>
            if !dbConfigured || storeFails {
              return WebhookFailed(InternalError);
            }
            SetStatusById(db, id, UpdatedStatus(providerStatus), now);
          case SubscriptionDeleted(id) =>
            if !dbConfigured || storeFails {
              return WebhookFailed(InternalError);
            }
            SetStatusById(db, id, "cancelled", now);
          case OtherEvent =>
        }
    }
    response := Acknowledged;
  }

  /**
   * A store failure while handling an event answers 500 and leaves every
   * record as it was, so the provider's redelivery finds the same state.
   */
  lemma StoreFailureChangesNothing(subs: map<string, SubRecord>, subs': map<string, SubRecord>, dbConfigured: bool, delivery: Delivery, now: int)
    requires UsesStore(delivery)
    requires WebhookEffect(subs, subs', dbConfigured, true, delivery, now)
    ensures WebhookAnswer(dbConfigured, true, delivery) == WebhookFailed(InternalError)
    ensures subs' == subs
  {
  }

  /** Webhook events only ever write the three known statuses. */
  lemma WebhookKeepsKnownStatuses(subs: map<string, SubRecord>, subs': map<string, SubRecord>, dbConfigured: bool, storeFails: bool, delivery: Delivery, now: int)
    requires AllKnownStatuses(subs)
    requires WebhookEffect(subs, subs', dbConfigured, storeFails, delivery, now)
    ensures AllKnownStatuses(subs')
  {
    if WebhookAnswer(dbConfigured, storeFails, delivery).Acknowledged? && delivery.Verified? {
      match delivery.event
      case SubscriptionUpdated(id, providerStatus) =>
        if exists k :: k in subs && subs[k].subscriptionId == id {
          var k :| k in subs && subs[k].subscriptionId == id &&
                   subs' == subs[k := subs[k].(status := Some(UpdatedStatus(providerStatus)), updatedAt := Some(now))];
        }
      case SubscriptionDeleted(id) =>
        if exists k :: k in subs && subs[k].subscriptionId == id {
          var k :| k in subs && subs[k].subscriptionId == id &&
                   subs' == subs[k := subs[k].(status := Some("cancelled"), updatedAt := Some(now))];
        }
      case CheckoutCompleted(_) =>
      case OtherEvent =>
    }
  }

  /**
   * An update or deletion touches at most one record, one that carries the
   * event's subscription id, and creates none.
   */
  lemma StatusEventsTouchOneMatchingRecord(subs: map<string, SubRecord>, subs': map<string, SubRecord>, id: Option<string>, status: string, now: int)
    requires StatusSetById(subs, subs', id, status, now)
    ensures subs'.Keys == subs.Keys
    ensures forall k :: k in subs && subs[k].subscriptionId != id ==> subs'[k] == subs[k]
    ensures forall k, k' :: k in subs && k' in subs && subs'[k] != subs[k] && subs'[k'] != subs[k'] ==> k == k'
  {
    if exists k :: k in subs && subs[k].subscriptionId == id {
      var k :| k in subs && subs[k].subscriptionId == id &&
               subs' == subs[k := subs[k].(status := Some(status), updatedAt := Some(now))];
    }
  }

  /** A completed checkout with a user id makes that user Plus for the chat quota. */
  lemma CheckoutGrantsPlus(subs: map<string, SubRecord>, subs': map<string, SubRecord>, s: Session, now: int)
    requires Present(CheckoutUserId(s))
    requires WebhookEffect(subs, subs', true, false, Verified(CheckoutCompleted(s)), now)
    ensures IsPlus(subs', CheckoutUserId(s).value)
    ensures forall k :: k in subs && k != CheckoutUserId(s).value ==> k in subs' && subs'[k] == subs[k]
  {
  }

  /**
   * When exactly one record carries the subscription id, an update leaves
   * its user Plus exactly when the provider says `'active'`, and a deletion
   * ends Plus.
   */
  lemma StatusEventsDecidePlus(subs: map<string, SubRecord>, subs': map<string, SubRecord>, event: WebhookEvent, user: string, now: int)
    requires event.SubscriptionUpdated? || event.SubscriptionDeleted?
    requires user in subs && subs[user].subscriptionId == event.id
    requires forall k :: k in subs && subs[k].subscriptionId == event.id ==> k == user
    requires WebhookEffect(subs, subs', true, false, Verified(event), now)
    ensures event.SubscriptionUpdated? ==> (IsPlus(subs', user) <==> event.providerStatus == Some("active"))
    ensures event.SubscriptionDeleted? ==> !IsPlus(subs', user)
  {
    var status := if event.SubscriptionUpdated? then UpdatedStatus(event.providerStatus) else "cancelled";
    assert StatusSetById(subs, subs', event.id, status, now);
    var k :| k in subs && subs[k].subscriptionId == event.id &&
             subs' == subs[k := subs[k].(status := Some(status), updatedAt := Some(now))];
  }

  // ---------------------------------------------------------------------------
  // Subscription status
  // ---------------------------------------------------------------------------

  datatype StatusResponse =
    | NoSubscription                                          // {isSubscribed: false, status: "none"}
    | Report(isSubscribed: bool, status: string, planId: string)
    | StatusFailed(error: ErrorKind)

  /** The checks before the record is read. */
  function StatusGate(dbConfigured: bool, userId: Option<string>): (r: Result<string, ErrorKind>)
    ensures r.Success? <==> dbConfigured && ValidateUserId(Arg(userId))
    ensures r.Success? ==> userId == Some(r.value)
  {
    if !dbConfigured then Failure(DatabaseNotConfigured)
    else if !Truthy(Arg(userId)) then Failure(UserIdRequired)
    else if !ValidateUserId(Arg(userId)) then Failure(InvalidUserId)
    else Success(userId.value)
  }

  /** The answer for the record as read, before any reconciliation. */
  function StatusAnswer(record: Option<SubRecord>): (r: StatusResponse)
    ensures r == NoSubscription <==> record.None?
    ensures r.Report? ==> record.Some? && (r.isSubscribed <==> record.value.status == Some("active"))
    ensures r.Report? ==> r.status == "active" || !r.isSubscribed
  {
    match record
    case None => NoSubscription
    case Some(rec) =>
      var status := rec.status.GetOr("inactive");
      Report(status == "active", status, rec.planId.GetOr("monthly"))
  }

  /**
   * The status endpoint reports a user subscribed exactly when the chat
   * endpoint treats that user as Plus: both read the same stored status.
   */
  lemma StatusAgreesWithPlus(subs: map<string, SubRecord>, userId: string)
    ensures var answer := StatusAnswer(if userId in subs then Some(subs[userId]) else None);
            IsPlus(subs, userId) <==> answer.Report? && answer.isSubscribed
  {
  }

  /**
   * The provider is asked only about a stored `'active'` record with a
   * subscription id; the record is marked inactive when the provider answers
   * with another status and the write succeeds.
   */
  predicate Reconciles(record: Option<SubRecord>, live: Option<string>, writeFails: bool) {
    && record.Some?
    && Present(record.value.subscriptionId)
    && record.value.status.GetOr("inactive") == "active"
    && live.Some? && live.value != "active"
    && !writeFails
  }

  /**
   * `get_subscription_status`. `live` is the provider's status for the
   * subscription, `None` when the provider call raises; `writeFails` says
   * whether the reconciling write raises (it is swallowed).
   */
  method SubscriptionStatus(
    db: Database, dbConfigured: bool, userId: Option<string>,
    readFails: bool, live: Option<string>, writeFails: bool, now: int)
    returns (response: StatusResponse)
    modifies db
    ensures var gate := StatusGate(dbConfigured, userId);
            && (gate.Failure? ==> response == StatusFailed(gate.error))
            && (gate.Success? && readFails ==> response == StatusFailed(InternalError))
            && (gate.Success? && !readFails ==>
                  var record := if gate.value in old(db.subscriptions) then Some(old(db.subscriptions)[gate.value]) else None;
                  response == StatusAnswer(record))
    ensures var gate := StatusGate(dbConfigured, userId);
            if gate.Success? && !readFails &&
               Reconciles(if gate.value in old(db.subscriptions) then Some(old(db.subscriptions)[gate.value]) else None, live, writeFails)
            then db.subscriptions == old(db.subscriptions)[gate.value := old(db.subscriptions)[gate.value].(status := Some("inactive"), updatedAt := Some(now))]
            else db.subscriptions == old(db.subscriptions)
    ensures db.chats == old(db.chats)
  {
    var gate := StatusGate(dbConfigured, userId);
    if gate.Failure? {
      return StatusFailed(gate.error);
    }
    if readFails {
      return StatusFailed(InternalError);
    }
    var user := gate.value;
    if user !in db.subscriptions {
      return NoSubscription;
    }
    var rec := db.subscriptions[user];
    var status := rec.status.GetOr("inactive");
    var isActive := false;
    if Present(rec.subscriptionId) && status == "active" && live.Some? {
      isActive := live.value == "active";
      if isActive != (status == "active") && !writeFails {
        db.SetStatus(user, if isActive then "active" else "inactive", now);
      }
    }
    response := Report(isActive || status == "active", status, rec.planId.GetOr("monthly"));
  }

  /**
   * The provider's answer never changes the reply: a subscriber the provider
   * already reports as lapsed is still answered `isSubscribed: true`, and
   * only the next query, after the reconciling write, says otherwise.
   */
  lemma ReconciledRecordIsNotSubscribed(record: SubRecord, live: Option<string>, now: int)
    requires Reconciles(Some(record), live, false)
    ensures StatusAnswer(Some(record)).isSubscribed
    ensures !StatusAnswer(Some(record.(status := Some("inactive"), updatedAt := Some(now)))).isSubscribed
  {
  }
}
