/**
 * The messaging input schemas: thread and request enums, attachments,
 * custom-request specifications and reference images, threads, messages,
 * custom requests with their customer and admin updates, the thread and
 * request filters and sorts, and bulk updates. Dates are millisecond
 * timestamps.
 */
module MessageValidation {
  import opened Common
  import opened Zod

  /** `messageThreadStatusSchema`. */
  const ThreadStatuses: seq<string> := ["open", "closed", "pending"]

  /** `messageThreadPrioritySchema`. */
  const ThreadPriorities: seq<string> := ["low", "normal", "high", "urgent"]

  /** `customRequestStatusSchema`. */
  const RequestStatuses: seq<string> := ["pending", "reviewing", "quoted", "approved", "declined", "completed"]

  /** `customRequestTypeSchema`. */
  const RequestTypes: seq<string> := ["custom_cake", "custom_cookies", "special_flavor", "custom_decoration", "bulk_order", "other"]

  predicate Distinct(xs: seq<string>)
  {
    forall i, j :: 0 <= i < j < |xs| ==> xs[i] != xs[j]
  }

  /** The four enums are closed lists of 3, 4, 6 and 6 distinct values. */
  lemma EnumSizes()
    ensures |ThreadStatuses| == 3 && Distinct(ThreadStatuses)
    ensures |ThreadPriorities| == 4 && Distinct(ThreadPriorities)
    ensures |RequestStatuses| == 6 && Distinct(RequestStatuses)
    ensures |RequestTypes| == 6 && Distinct(RequestTypes)
    ensures "resolved" !in ThreadStatuses && "medium" !in ThreadPriorities && "cancelled" !in RequestStatuses
  {
  }

  // ---------------------------------------------------------------------------
  // Attachments, specifications, reference images

  /** A file attachment; the URL's format is not checked here. */
  datatype FileAttachment = FileAttachment(url: Option<string>, name: Option<string>, size: Option<real>, fileType: Option<string>)

  datatype ImageAttachment = ImageAttachment(url: Option<string>, alt: Option<string>, width: Option<real>, height: Option<real>)

  datatype Attachments = Attachments(files: Option<seq<FileAttachment>>, images: Option<seq<ImageAttachment>>)

  predicate FileAttachmentValid(f: FileAttachment)
  {
    f.url.Some? && ReqStr(f.name, 1, 255) && f.size.Some? && IntAtLeast(f.size.value, 1) && ReqStr(f.fileType, 1, 100)
  }

  predicate ImageAttachmentValid(m: ImageAttachment)
  {
    m.url.Some? && OptStr(m.alt, 255)
    && (m.width.None? || IntAtLeast(m.width.value, 1)) && (m.height.None? || IntAtLeast(m.height.value, 1))
  }

  /** `messageAttachmentsSchema`. */
  predicate AttachmentsValid(a: Option<Attachments>)
  {
    a.None? ||
    ((a.value.files.None? || forall i :: 0 <= i < |a.value.files.value| ==> FileAttachmentValid(a.value.files.value[i]))
     && (a.value.images.None? || forall i :: 0 <= i < |a.value.images.value| ==> ImageAttachmentValid(a.value.images.value[i])))
  }

  datatype RequestDecorations = RequestDecorations(theme: Option<string>, colors: Option<seq<string>>, text: Option<string>,
                                                   design: Option<string>)

  datatype Delivery = Delivery(date: Option<string>, time: Option<string>, location: Option<string>)

  /** `customRequestSpecificationsSchema`; the dietary flags are free booleans and `customOptions` any record. */
  datatype Specifications = Specifications(size: Option<string>, servings: Option<real>, flavors: Option<seq<string>>,
                                           decorations: Option<RequestDecorations>, delivery: Option<Delivery>)

  predicate SpecificationsValid(s: Option<Specifications>)
  {
    s.None? ||
    (OptStr(s.value.size, 100) && OptIntIn(s.value.servings, 1, 1000)
     && (s.value.flavors.None? || AllMaxLen(s.value.flavors.value, 100))
     && (s.value.decorations.None? ||
         (OptStr(s.value.decorations.value.theme, 100)
          && (s.value.decorations.value.colors.None? || AllMaxLen(s.value.decorations.value.colors.value, 50))
          && OptStr(s.value.decorations.value.text, 200) && OptStr(s.value.decorations.value.design, 500)))
     && (s.value.delivery.None? || OptStr(s.value.delivery.value.location, 200)))
  }

  /** Requested servings, when given, are a whole number from 1 to 1000. */
  lemma SpecificationServings(s: Specifications, n: real)
    ensures SpecificationsValid(Some(s.(servings := Some(n)))) ==> IsInt(n) && 1.0 <= n <= 1000.0
    ensures SpecificationsValid(Some(s)) ==> SpecificationsValid(Some(s.(servings := None)))
    ensures !SpecificationsValid(Some(s.(servings := Some(0.0)))) && !SpecificationsValid(Some(s.(servings := Some(1001.0))))
  {
  }

  datatype ReferenceImage = ReferenceImage(url: Option<string>, description: Option<string>, source: Option<string>)

  datatype ReferenceImages = ReferenceImages(images: Option<seq<ReferenceImage>>)

  /** `customRequestReferenceImagesSchema`. */
  predicate ReferenceImagesValid(r: Option<ReferenceImages>)
  {
    r.None? || r.value.images.None? ||
    forall i :: 0 <= i < |r.value.images.value| ==>
      r.value.images.value[i].url.Some? && OptStr(r.value.images.value[i].description, 500)
      && OptStr(r.value.images.value[i].source, 200)
  }

  // ---------------------------------------------------------------------------
  // Threads and messages

  datatype ThreadInput = ThreadInput(id: Option<string>, userId: Option<string>, subject: Option<string>,
                                     status: Option<string>, priority: Option<string>, orderId: Option<string>)

  predicate ThreadFieldsValid(t: ThreadInput)
  {
    ReqStr(t.subject, 1, 200) && ReqIn(t.status, ThreadStatuses) && ReqIn(t.priority, ThreadPriorities)
  }

  /** `messageThreadSchema`. */
  predicate ThreadValid(t: ThreadInput)
  {
    ReqId(t.id) && ThreadFieldsValid(t)
  }

  /** `createMessageThreadSchema`. */
  predicate CreateThreadValid(t: ThreadInput)
  {
    ThreadFieldsValid(t)
  }

  /** `updateMessageThreadSchema`. */
  predicate UpdateThreadValid(subject: Option<string>, status: Option<string>, priority: Option<string>)
  {
    (subject.None? || LenIn(subject.value, 1, 200)) && OptIn(status, ThreadStatuses) && OptIn(priority, ThreadPriorities)
  }

  lemma CreateThreadIsThreadWithoutId(t: ThreadInput, id: string)
    requires |id| >= 1
    ensures CreateThreadValid(t) <==> ThreadValid(t.(id := Some(id)))
    ensures ThreadValid(t) ==> UpdateThreadValid(t.subject, t.status, t.priority)
  {
  }

  datatype MessageInput = MessageInput(id: Option<string>, threadId: Option<string>, senderId: Option<string>,
                                       content: Option<string>, isFromCustomer: Option<bool>, isRead: Option<bool>,
                                       attachments: Option<Attachments>)

  predicate MessageFieldsValid(m: MessageInput)
  {
    ReqId(m.threadId) && ReqStr(m.content, 1, 5000) && m.isFromCustomer.Some? && AttachmentsValid(m.attachments)
  }

  /** `messageSchema`. */
  predicate MessageValid(m: MessageInput)
  {
    ReqId(m.id) && MessageFieldsValid(m)
  }

  /** `messageSchema.parse`: a message is unread unless told otherwise. */
  function ParseMessage(m: MessageInput): (r: Option<MessageInput>)
    ensures r.Some? <==> MessageValid(m)
    ensures r.Some? ==> MessageValid(r.value) && r.value.isRead == Some(m.isRead.GetOr(false))
    ensures r.Some? ==> r.value.(isRead := m.isRead) == m
  {
    if MessageValid(m) then Some(m.(isRead := Some(m.isRead.GetOr(false)))) else None
  }

  /** `createMessageSchema.parse`: the id and the read flag are not part of it and are dropped. */
  function ParseCreateMessage(m: MessageInput): (r: Option<MessageInput>)
    ensures r.Some? <==> MessageFieldsValid(m)
    ensures r.Some? ==> r.value.id.None? && r.value.isRead.None?
    ensures r.Some? ==> r.value.(id := m.id, isRead := m.isRead) == m
  {
    if MessageFieldsValid(m) then Some(m.(id := None, isRead := None)) else None
  }

  /** A new message cannot arrive already read: whatever the caller sends, the read flag is dropped. */
  lemma CreateMessageIgnoresRead(m: MessageInput, b: bool)
    ensures ParseCreateMessage(m.(isRead := Some(b))) == ParseCreateMessage(m)
  {
  }

  /** `updateMessageSchema`. */
  predicate UpdateMessageValid(content: Option<string>, isRead: Option<bool>)
  {
    content.None? || LenIn(content.value, 1, 5000)
  }

  /** Message content is 1 to 5000 characters, on create and on update; a thread subject 1 to 200. */
  lemma ContentBounds(m: MessageInput, t: ThreadInput)
    requires MessageValid(m) && ThreadValid(t)
    ensures 1 <= |m.content.value| <= 5000 && 1 <= |t.subject.value| <= 200
    ensures !MessageValid(m.(content := Some(""))) && !UpdateMessageValid(Some(""), None)
    ensures UpdateMessageValid(m.content, None)
  {
  }

  // ---------------------------------------------------------------------------
  // Custom requests

  datatype RequestInput = RequestInput(id: Option<string>, userId: Option<string>, requestType: Option<string>,
                                       title: Option<string>, description: Option<string>,
                                       specifications: Option<Specifications>,
                                       referenceImages: Option<ReferenceImages>,
                                       budgetRange: Option<string>, eventDate: Option<int>, status: Option<string>,
                                       adminNotes: Option<string>, quotedPrice: Option<string>, orderId: Option<string>)

  /** The checks a customer's request makes: everything but the id and the admin-only fields. */
  predicate CustomerFieldsValid(x: RequestInput)
  {
    ReqId(x.userId) && ReqIn(x.requestType, RequestTypes) && ReqStr(x.title, 1, 200) && ReqStr(x.description, 1, 2000)
    && SpecificationsValid(x.specifications) && ReferenceImagesValid(x.referenceImages) && OptStr(x.budgetRange, 50)
  }

  /** `customRequestSchema`, without the future-date check on the event date. */
  predicate RequestValid(x: RequestInput)
  {
    ReqId(x.id) && CustomerFieldsValid(x) && ReqIn(x.status, RequestStatuses) && OptStr(x.adminNotes, 1000)
    && OptPrice(x.quotedPrice)
  }

  /** `createCustomRequestSchema.parse`: the id, status, admin notes, quote and order are not part of it and are dropped. */
  function ParseCreateRequest(x: RequestInput): (r: Option<RequestInput>)
    ensures r.Some? <==> CustomerFieldsValid(x)
    ensures r.Some? ==> r.value.id.None? && r.value.status.None? && r.value.adminNotes.None?
                        && r.value.quotedPrice.None? && r.value.orderId.None?
    ensures r.Some? ==> r.value.(id := x.id, status := x.status, adminNotes := x.adminNotes,
                                 quotedPrice := x.quotedPrice, orderId := x.orderId) == x
  {
    if CustomerFieldsValid(x) then Some(x.(id := None, status := None, adminNotes := None, quotedPrice := None, orderId := None))
    else None
  }

  /** A customer cannot set the status, notes, quote or order of a new request: sending them changes nothing. */
  lemma CreateRequestIgnoresAdminFields(x: RequestInput, status: Option<string>, notes: Option<string>,
                                        quote: Option<string>, order: Option<string>)
    ensures ParseCreateRequest(x.(status := status, adminNotes := notes, quotedPrice := quote, orderId := order))
            == ParseCreateRequest(x)
  {
  }

  /** A full request is a customer request plus a status, with optional notes and a quote in the price format. */
  lemma RequestIsCustomerPlusAdmin(x: RequestInput)
    ensures RequestValid(x) ==> ParseCreateRequest(x).Some?
    ensures RequestValid(x) && x.quotedPrice.Some? ==> IsPrice(x.quotedPrice.value)
    ensures RequestValid(x) ==> !RequestValid(x.(quotedPrice := Some("12.")))
  {
    PriceExamples();
  }

  /** `updateCustomRequestSchema`, without the future-date check. */
  predicate UpdateRequestValid(x: RequestInput)
  {
    (x.title.None? || LenIn(x.title.value, 1, 200)) && (x.description.None? || LenIn(x.description.value, 1, 2000))
    && SpecificationsValid(x.specifications) && ReferenceImagesValid(x.referenceImages) && OptStr(x.budgetRange, 50)
  }

  /** `adminUpdateCustomRequestSchema`. */
  predicate AdminUpdateRequestValid(status: Option<string>, adminNotes: Option<string>, quotedPrice: Option<string>)
  {
    OptIn(status, RequestStatuses) && OptStr(adminNotes, 1000) && OptPrice(quotedPrice)
  }

  // ---------------------------------------------------------------------------
  // Filters, sorts, bulk updates

  /** `messageThreadFilterSchema`. */
  predicate ThreadFilterValid(status: Option<seq<string>>, priority: Option<seq<string>>, search: Option<string>)
  {
    OptAllIn(status, ThreadStatuses) && OptAllIn(priority, ThreadPriorities) && OptStr(search, 255)
  }

  /** `messageThreadSortSchema`. */
  const ThreadSorts: seq<string> := ["updated-desc", "updated-asc", "created-desc", "created-asc", "priority", "status"]

  datatype RequestFilterInput = RequestFilterInput(status: Option<seq<string>>, requestType: Option<seq<string>>,
                                                   userId: Option<string>, hasQuote: Option<bool>,
                                                   eventDateFrom: Option<int>, eventDateTo: Option<int>,
                                                   search: Option<string>)

  /** `customRequestFilterSchema`, with its date refinement (a present `Date` is truthy). */
  predicate RequestFilterValid(f: RequestFilterInput)
  {
    OptAllIn(f.status, RequestStatuses) && OptAllIn(f.requestType, RequestTypes) && OptStr(f.search, 255)
    && (f.eventDateFrom.Some? && f.eventDateTo.Some? ==> f.eventDateFrom.value <= f.eventDateTo.value)
  }

  /** The request filter refuses a from-date after the to-date, and only that, once its fields pass. */
  lemma RequestFilterDates(f: RequestFilterInput)
    requires OptAllIn(f.status, RequestStatuses) && OptAllIn(f.requestType, RequestTypes) && OptStr(f.search, 255)
    ensures !RequestFilterValid(f) <==> f.eventDateFrom.Some? && f.eventDateTo.Some? && f.eventDateFrom.value > f.eventDateTo.value
    ensures RequestFilterValid(f.(eventDateTo := None))
  {
  }

  /** `customRequestSortSchema`. */
  const RequestSorts: seq<string> := ["created-desc", "created-asc", "updated-desc", "updated-asc", "event-date", "status"]

  /**
   * `bulkMessageUpdateSchema` as written: ids, and an `updates` object whose
   * parsed form has a key. `keys` are the keys of the input `updates` object,
   * so `isRead` given as `undefined` still counts.
   */
  predicate BulkMessageUpdateValid(messageIds: Option<seq<string>>, isRead: Option<bool>, keys: set<string>)
  {
    IdList(messageIds) && KeyKept(isRead, "isRead", keys)
  }

  /** `bulkMessageUpdateSchema` as intended: the read flag is set. */
  predicate BulkMessageUpdateIntended(messageIds: Option<seq<string>>, isRead: Option<bool>)
  {
    IdList(messageIds) && isRead.Some?
  }

  /** `bulkThreadUpdateSchema` as written: ids, and a status or a priority key. */
  predicate BulkThreadUpdateValid(threadIds: Option<seq<string>>, status: Option<string>, priority: Option<string>,
                                  keys: set<string>)
  {
    IdList(threadIds) && OptIn(status, ThreadStatuses) && OptIn(priority, ThreadPriorities)
    && (KeyKept(status, "status", keys) || KeyKept(priority, "priority", keys))
  }

  /** `bulkThreadUpdateSchema` as intended: a status or a priority to set. */
  predicate BulkThreadUpdateIntended(threadIds: Option<seq<string>>, status: Option<string>, priority: Option<string>)
  {
    IdList(threadIds) && OptIn(status, ThreadStatuses) && OptIn(priority, ThreadPriorities) && (status.Some? || priority.Some?)
  }

  /** Both bulk updates refuse an empty id list and an update without a key, and accept one id with one field. */
  lemma BulkUpdatesNeed(ids: Option<seq<string>>, id: string, keys: set<string>)
    ensures "isRead" !in keys ==> !BulkMessageUpdateValid(ids, None, keys)
    ensures "status" !in keys && "priority" !in keys ==> !BulkThreadUpdateValid(ids, None, None, keys)
    ensures !BulkMessageUpdateValid(Some([]), Some(true), keys) && !BulkThreadUpdateValid(Some([]), Some("open"), None, keys)
    ensures |id| >= 1 ==> BulkMessageUpdateValid(Some([id]), Some(true), keys) && BulkThreadUpdateValid(Some([id]), None, Some("urgent"), keys)
  {
  }

  /**
   * Each intended schema accepts exactly the updates the schema as written
   * accepts that set a field, and the two agree when no key is given as `undefined`.
   */
  lemma BulkUpdatesIntendedMeaning(ids: Option<seq<string>>, isRead: Option<bool>, status: Option<string>,
                                   priority: Option<string>, keys: set<string>)
    ensures BulkMessageUpdateIntended(ids, isRead) <==> BulkMessageUpdateValid(ids, isRead, keys) && isRead.Some?
    ensures NotUndefined(isRead, "isRead", keys) ==>
              (BulkMessageUpdateIntended(ids, isRead) <==> BulkMessageUpdateValid(ids, isRead, keys))
    ensures BulkThreadUpdateIntended(ids, status, priority)
            <==> BulkThreadUpdateValid(ids, status, priority, keys) && (status.Some? || priority.Some?)
    ensures NotUndefined(status, "status", keys) && NotUndefined(priority, "priority", keys) ==>
              (BulkThreadUpdateIntended(ids, status, priority) <==> BulkThreadUpdateValid(ids, status, priority, keys))
  {
  }

  /** `{ isRead: undefined }` and `{ status: undefined }` pass the schemas as written though they set nothing. */
  lemma UndefinedKeyCountsAsMessageUpdate()
    ensures BulkMessageUpdateValid(Some(["m1"]), None, {"isRead"}) && !BulkMessageUpdateIntended(Some(["m1"]), None)
    ensures BulkThreadUpdateValid(Some(["t1"]), None, None, {"status"}) && !BulkThreadUpdateIntended(Some(["t1"]), None, None)
  {
  }
}
