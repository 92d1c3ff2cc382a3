/**
 * The ordering conversation of one user, as pure functions: which handler a
 * message reaches in each state, what it does to the user's session data,
 * which reply it sends and which order it hands to the store.
 *
 * `Idle` is the framework's `ConversationHandler.END`: the user has no
 * conversation in progress and the next text goes to the entry handler.
 */
module Conversation {
  import opened Wrappers
  import opened Text
  import opened Catalog
  import opened Orders

  /** The two labels of the reply keyboard. */
  const ProductsLabel: string := "\U{1F6D2} محصولات"
  const ContactLabel: string := "\U{1F4DE} تماس با ما"

  datatype ConvState = Idle | AwaitingName | AwaitingPhone

  /**
   * A user's `user_data`: the keys `pending_order` and `customer_name`,
   * each absent (`None`) or holding a value.
   */
  datatype Session = Session(pendingOrder: Option<Product>, customerName: Option<string>)

  const EmptySession := Session(None, None)

  /** Which reply the bot sends; the wording and markup of each are not modelled. */
  datatype Reply =
    | ProductList                 // the catalog listing
    | ContactInfo                 // the shop's phone and e-mail
    | ProductChosen(product: Product)
    | NotFound                    // "no product with this code"
    | AskPhone
    | OrderConfirmed(order: Order)
    | NoReply

  /** How the entry handler reads a message. */
  datatype Entry =
    | ShowProducts
    | ShowContact
    | Selected(product: Product)
    | UnknownCode
    | Ignored

  /** The decision of `handle_message`, in the order its tests are made. */
  function Classify(text: string): Entry {
    var t := Strip(text);
    if t == ProductsLabel then ShowProducts
    else if t == ContactLabel then ShowContact
    else if IsDigits(t) then
      match FindById(Products, DecimalValue(t))
      case Some(p) => Selected(p)
      case None => UnknownCode
    else Ignored
  }

  /**
   * How the entry handler reads a message, in terms of the stripped text: an
   * exact menu label; else an all-digit code that some catalog product has,
   * which selects that product; else an all-digit code none has; else nothing.
   */
  lemma ClassifySpec(text: string)
    ensures var t := Strip(text); var e := Classify(text);
      && (e == ShowProducts <==> t == ProductsLabel)
      && (e == ShowContact <==> t == ContactLabel)
      && (e.Selected? <==> IsDigits(t) && exists p | p in Products :: p.id == DecimalValue(t))
      && (e.Selected? ==> e.product in Products && e.product.id == DecimalValue(t))
      && (e == UnknownCode <==> IsDigits(t) && forall p | p in Products :: p.id != DecimalValue(t))
      && (e == Ignored <==> t != ProductsLabel && t != ContactLabel && !IsDigits(t))
  {
    assert ProductsLabel[0] == '\U{1F6D2}' && ContactLabel[0] == '\U{1F4DE}';
  }

  /** One user's conversation: where it stands and what `user_data` holds. */
  datatype Config = Config(state: ConvState, session: Session)

  /** The effect of one message: the new configuration, the reply, the order handed to `save_order`. */
  datatype Transition = Transition(next: Config, reply: Reply, saved: Option<Order>)

  /**
   * What `user_data` holds in each state: nothing while idle, the chosen
   * product while waiting for the name, product and name while waiting for
   * the phone.
   */
  predicate Consistent(c: Config) {
    match c.state
    case Idle => c.session == EmptySession
    case AwaitingName => c.session.pendingOrder.Some? && c.session.customerName.None?
    case AwaitingPhone => c.session.pendingOrder.Some? && c.session.customerName.Some?
  }

  /** The record the phone step builds, before the store stamps it. */
  function NewOrder(p: Product, name: string, phone: string): Order {
    Order(p.id, p.name, p.price, name, phone, None)
  }

  /**
   * One message in one state, as the conversation's `states` wiring routes it:
   * the entry handler while idle, `get_name` and `get_phone_and_save` after.
   * The phone step reads both session keys, so they must be there.
   */
  function Step(c: Config, text: string): (t: Transition)
    requires c.state == AwaitingPhone ==>
               c.session.pendingOrder.Some? && c.session.customerName.Some?
    ensures Consistent(c) ==> Consistent(t.next)
    ensures t.saved.Some? <==> c.state == AwaitingPhone
    ensures t.next.state == AwaitingName <==> c.state == Idle && Classify(text).Selected?
  {
    match c.state
    case Idle =>
      (match Classify(text)
       case ShowProducts => Transition(c, ProductList, None)
       case ShowContact => Transition(c, ContactInfo, None)
       case Selected(p) =>
         Transition(Config(AwaitingName, c.session.(pendingOrder := Some(p))), ProductChosen(p), None)
       case UnknownCode => Transition(c, NotFound, None)
       case Ignored => Transition(c, NoReply, None))
    case AwaitingName =>
      Transition(Config(AwaitingPhone, c.session.(customerName := Some(text))), AskPhone, None)
    case AwaitingPhone =>
      var order := NewOrder(c.session.pendingOrder.value, c.session.customerName.value, text);
      Transition(Config(Idle, EmptySession), OrderConfirmed(order), Some(order))
  }

  /** The orders file after a step: one `save_order` call when the step hands over an order. */
  ghost function Deposit(file: Option<seq<Order>>, saved: Option<Order>, now: Timestamp): (r: Option<seq<Order>>)
    ensures Load(r) == Load(file) + if saved.Some? then [Stamp(saved.value, now)] else []
  {
    if saved.Some? then
      SaveAllAppends(file, [(saved.value, now)]);
      SaveAll(file, [(saved.value, now)])
    else file
  }

  /** An incoming text message and the clock reading at the time it is handled. */
  datatype Msg = Msg(text: string, now: Timestamp)

  /**
   * A user's messages handled one after another. The store only grows: whatever
   * it held before is still there, unchanged and first.
   */
  ghost function Run(c: Config, file: Option<seq<Order>>, msgs: seq<Msg>): (r: (Config, Option<seq<Order>>))
    requires Consistent(c)
    ensures Consistent(r.0)
    ensures |Load(r.1)| >= |Load(file)| && Load(r.1)[..|Load(file)|] == Load(file)
    decreases |msgs|
  {
    if msgs == [] then (c, file)
    else
      var t := Step(c, msgs[0].text);
      var file' := Deposit(file, t.saved, msgs[0].now);
      var r := Run(t.next, file', msgs[1..]);
      assert Load(r.1)[..|Load(file')|][..|Load(file)|] == Load(r.1)[..|Load(file)|];
      r
  }

  /** Surrounding whitespace does not change how the entry handler reads a message. */
  lemma ClassifyIgnoresPadding(a: string, text: string, b: string)
    requires AllSpace(a) && AllSpace(b)
    ensures Strip(a + text + b) == Strip(text)
    ensures Classify(a + text + b) == Classify(text)
  {
    StripIgnoresPadding(a, text, b);
  }

  /** A stripped message that reads as the code of a catalog product selects that product. */
  lemma CodeSelects(text: string, p: Product)
    requires IsDigits(Strip(text)) && p in Products && p.id == DecimalValue(Strip(text))
    ensures Classify(text) == Selected(p)
  {
    ProductsWellFormed();
    FindByIdExact(Products, p);
  }

  /**
   * The code of any product, as the catalog listing shows it, selects that
   * product, also with leading zeros and surrounding whitespace.
   */
  lemma CatalogCodeSelects(p: Product, zeros: string, a: string, b: string)
    requires p in Products
    requires forall k | 0 <= k < |zeros| :: zeros[k] == '0'
    requires AllSpace(a) && AllSpace(b)
    ensures Classify(a + (zeros + DecimalText(p.id)) + b) == Selected(p)
  {
    var code := zeros + DecimalText(p.id);
    LeadingZeros(zeros, DecimalText(p.id));
    DecimalRoundTrip(p.id);
    assert IsDigits(code);
    assert Trimmed(code) by {
      assert IsDigit(code[0]) && IsDigit(code[|code| - 1]);
    }
    StripPadding(a, code, b);
    CodeSelects(a + code + b, p);
  }

  /** The message " 01 " selects product 1. */
  lemma PaddedCodeSelectsFirstProduct()
    ensures Classify(" 01 ") == Selected(Products[0])
  {
    assert DecimalText(1) == "1";
    CatalogCodeSelects(Products[0], "0", " ", " ");
    assert " " + ("0" + "1") + " " == " 01 ";
  }

  /**
   * Idle: a menu label, after stripping, answers with the catalog or the
   * contact details and leaves the conversation idle; no product is chosen and
   * no order is saved.
   */
  lemma MenuLabelEndsConversation(c: Config, text: string)
    requires c.state == Idle
    requires Strip(text) == ProductsLabel || Strip(text) == ContactLabel
    ensures var t := Step(c, text);
      && t.next == c && t.saved == None
      && t.reply == (if Strip(text) == ProductsLabel then ProductList else ContactInfo)
  {
  }

  /**
   * Idle: a code the catalog has stores exactly that product as the pending
   * order and waits for the name; nothing is saved.
   */
  lemma KnownCodeSelects(c: Config, text: string, p: Product)
    requires c.state == Idle
    requires IsDigits(Strip(text)) && p in Products && p.id == DecimalValue(Strip(text))
    ensures var t := Step(c, text);
      && t.next == Config(AwaitingName, c.session.(pendingOrder := Some(p)))
      && t.reply == ProductChosen(p) && t.saved == None
  {
    CodeSelects(text, p);
  }

  /**
   * Idle: any other text (an unknown code, or text that is neither a menu
   * label nor all digits) changes nothing and saves nothing; only an unknown
   * code gets a reply.
   */
  lemma OtherTextChangesNothing(c: Config, text: string)
    requires c.state == Idle
    requires !Classify(text).Selected? && Strip(text) != ProductsLabel && Strip(text) != ContactLabel
    ensures var t := Step(c, text);
      && t.next == c && t.saved == None
      && t.reply == (if IsDigits(Strip(text)) then NotFound else NoReply)
  {
  }

  /** The message "99" names no product: "not found", still idle, nothing saved. */
  lemma UnknownCodeNotFound(c: Config)
    requires c.state == Idle
    ensures var t := Step(c, "99");
      && t.next == c && t.reply == NotFound && t.saved == None
  {
    StripPadding([], "99", []);
    assert [] + "99" + [] == "99";
    assert DecimalValue("99") == 99 by {
      assert "99"[..1] == "9";
    }
  }

  /**
   * Waiting for the name: the text, whatever it is (a menu label included),
   * becomes the customer name unstripped, and the phone is asked for.
   */
  lemma AnyTextIsTheName(c: Config, text: string)
    requires c.state == AwaitingName
    ensures var t := Step(c, text);
      && t.next == Config(AwaitingPhone, c.session.(customerName := Some(text)))
      && t.reply == AskPhone && t.saved == None
  {
  }

  /**
   * Waiting for the phone: exactly one order is handed to the store, built
   * from the pending product, the stored name and the text as phone; then
   * `user_data` is emptied and the conversation ends.
   */
  lemma PhoneSavesOrder(c: Config, text: string)
    requires c.state == AwaitingPhone
    requires c.session.pendingOrder.Some? && c.session.customerName.Some?
    ensures var t := Step(c, text);
      var p := c.session.pendingOrder.value;
      && t.next == Config(Idle, EmptySession)
      && t.saved == Some(Order(p.id, p.name, p.price, c.session.customerName.value, text, None))
      && t.reply == OrderConfirmed(t.saved.value)
  {
  }

  /**
   * A complete conversation (a code the catalog has, then a name, then a
   * phone) ends idle with an empty session, and the store has gained exactly
   * one record: that product, that name, that phone, stamped with the clock
   * reading of the phone message.
   */
  lemma CompletedConversationSavesOneOrder(file: Option<seq<Order>>, code: Msg, name: Msg, phone: Msg)
    requires Classify(code.text).Selected?
    ensures var p := Classify(code.text).product;
      var r := Run(Config(Idle, EmptySession), file, [code, name, phone]);
      var stored := Load(r.1);
      && r.0 == Config(Idle, EmptySession)
      && |stored| == |Load(file)| + 1
      && stored[..|Load(file)|] == Load(file)
      && stored[|Load(file)|] == Order(p.id, p.name, p.price, name.text, phone.text, Some(phone.now))
  {
    var p := Classify(code.text).product;
    var c0 := Config(Idle, EmptySession);
    var c1 := Config(AwaitingName, Session(Some(p), None));
    var c2 := Config(AwaitingPhone, Session(Some(p), Some(name.text)));
    var order := NewOrder(p, name.text, phone.text);
    assert Step(c0, code.text).next == c1;
    assert Step(c1, name.text).next == c2;
    assert Step(c2, phone.text).saved == Some(order);
    var msgs := [code, name, phone];
    assert msgs[1..] == [name, phone] && msgs[1..][1..] == [phone] && msgs[1..][1..][1..] == [];
    assert Run(c0, file, msgs) == Run(c1, file, [name, phone]);
    assert Run(c1, file, [name, phone]) == Run(c2, file, [phone]);
    var file' := SaveAll(file, [(order, phone.now)]);
    assert Run(c2, file, [phone]) == Run(Config(Idle, EmptySession), file', []);
    SaveAllAppends(file, [(order, phone.now)]);
  }

  /**
   * From idle, any run of menu-label messages leaves the conversation idle
   * with its session untouched and never writes an order.
   */
  lemma {:induction false} MenuMessagesNeverSave(c: Config, file: Option<seq<Order>>, msgs: seq<Msg>)
    requires c.state == Idle && Consistent(c)
    requires forall k | 0 <= k < |msgs| ::
               Strip(msgs[k].text) == ProductsLabel || Strip(msgs[k].text) == ContactLabel
    ensures Run(c, file, msgs) == (c, file)
    decreases |msgs|
  {
    if msgs != [] {
      MenuLabelEndsConversation(c, msgs[0].text);
      MenuMessagesNeverSave(c, file, msgs[1..]);
    }
  }
}
