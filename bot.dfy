/**
 * The bot's state across all users: the conversation handler's table of
 * users with a conversation in progress, every user's `user_data`, and the
 * orders file. The three handlers update `user_data` and the file in place;
 * `Receive` is the conversation handler routing one text message.
 */
module Bot {
  import opened Wrappers
  import opened Text
  import opened Catalog
  import opened Orders
  import opened Conversation

  /** A Telegram user's numeric identity. */
  type UserId = int

  class ShopBot {
    /** Users whose conversation has not ended, with the state each is in. */
    var conversations: map<UserId, ConvState>
    /** Each user's `user_data`; a user not in the map has an empty one. */
    var userData: map<UserId, Session>
    const store: OrderStore

    function StateOf(u: UserId): ConvState
      reads this
    {
      if u in conversations then conversations[u] else Idle
    }

    function SessionOf(u: UserId): Session
      reads this
    {
      if u in userData then userData[u] else EmptySession
    }

    function ConfigOf(u: UserId): Config
      reads this
    {
      Config(StateOf(u), SessionOf(u))
    }

    /**
     * An ended conversation is removed from the table, and every user's
     * `user_data` holds what that user's state needs.
     */
    ghost predicate Valid()
      reads this
    {
      && (forall u | u in conversations :: conversations[u] != Idle)
      && (forall u :: Consistent(ConfigOf(u)))
    }

    /** A bot that has heard from nobody yet, over an orders file that may or may not exist. */
    constructor (file: Option<seq<Order>>)
      ensures Valid() && fresh(store)
      ensures store.file == file
      ensures forall u :: ConfigOf(u) == Config(Idle, EmptySession)
    {
      conversations := map[];
      userData := map[];
      store := new OrderStore(file);
    }

    /**
     * `handle_message`, the entry point: a menu label ends the conversation,
     * a known code becomes the pending order and asks for the name, anything
     * else ends the conversation with `user_data` untouched.
     */
    method HandleMessage(u: UserId, text: string) returns (next: ConvState, reply: Reply)
      modifies this`userData
      ensures var t := Step(Config(Idle, old(SessionOf(u))), text);
        && next == t.next.state && reply == t.reply
        && userData == if next == AwaitingName then old(userData)[u := t.next.session] else old(userData)
    {
      var t := Strip(text);
      if t == ProductsLabel {
        return Idle, ProductList;
      } else if t == ContactLabel {
        return Idle, ContactInfo;
      }
      next, reply := Idle, NoReply;
      if IsDigits(t) {
        var productId := DecimalValue(t);
        var product := FindById(Products, productId);
        if product.Some? {
          userData := userData[u := SessionOf(u).(pendingOrder := product)];
          return AwaitingName, ProductChosen(product.value);
        } else {
          reply := NotFound;
        }
      }
    }

    /** `get_name`: the text, unstripped, becomes the customer name; the phone is asked for. */
    method GetName(u: UserId, text: string) returns (next: ConvState, reply: Reply)
      modifies this`userData
      ensures userData == old(userData)[u := old(SessionOf(u)).(customerName := Some(text))]
      ensures next == AwaitingPhone && reply == AskPhone
    {
      userData := userData[u := SessionOf(u).(customerName := Some(text))];
      next, reply := AwaitingPhone, AskPhone;
    }

    /**
     * `get_phone_and_save`: builds the order from the pending product, the
     * stored name and the text as phone, saves it, confirms, and clears
     * `user_data`. It reads both keys, so both must be present.
     */
    method GetPhoneAndSave(u: UserId, text: string, now: Timestamp) returns (next: ConvState, reply: Reply)
      requires SessionOf(u).pendingOrder.Some? && SessionOf(u).customerName.Some?
      modifies this`userData, store
      ensures var s := old(SessionOf(u));
        var order := NewOrder(s.pendingOrder.value, s.customerName.value, text);
        && store.file == SaveAll(old(store.file), [(order, now)])
        && reply == OrderConfirmed(order)
      ensures userData == old(userData)[u := EmptySession]
      ensures next == Idle
    {
      var phone := text;
      var name := SessionOf(u).customerName.value;
      var product := SessionOf(u).pendingOrder.value;
      var order := NewOrder(product, name, phone);
      store.SaveOrder(order, now);
      reply := OrderConfirmed(order);
      userData := userData[u := EmptySession];
      next := Idle;
    }

    /**
     * The conversation handler: routes the text to the handler of the user's
     * current state, records the state the handler returns (dropping the user
     * from the table when it is the end), and leaves every other user alone.
     */
    method Receive(u: UserId, text: string, now: Timestamp) returns (reply: Reply)
      requires Valid()
      modifies this, store
      ensures Valid()
      ensures var t := Step(old(ConfigOf(u)), text);
        && ConfigOf(u) == t.next
        && reply == t.reply
        && store.file == Deposit(old(store.file), t.saved, now)
      ensures forall v | v != u :: ConfigOf(v) == old(ConfigOf(v))
    {
      ghost var c := ConfigOf(u);
      ghost var t := Step(c, text);
      assert Consistent(c);
      var next: ConvState;
      var state := StateOf(u);
      if state == Idle {
        next, reply := HandleMessage(u, text);
      } else if state == AwaitingName {
        next, reply := GetName(u, text);
      } else {
        next, reply := GetPhoneAndSave(u, text, now);
      }
      assert SessionOf(u) == t.next.session;
      assert next == t.next.state && reply == t.reply;
      if next == Idle {
        conversations := conversations - {u};
      } else {
        conversations := conversations[u := next];
      }
      assert ConfigOf(u) == t.next;
      forall v ensures Consistent(ConfigOf(v)) {
        if v != u {
          assert ConfigOf(v) == old(ConfigOf(v));
        }
      }
    }
  }
}
