# Telegram shop bot: the ordering conversation

This project models the core of a small Telegram shop bot (`main.py`) in Dafny:

- the fixed product catalog and the lookup of a product by its numeric code;
- the three conversation handlers:
  - `handle_message`, the entry point, reacts to the two menu labels and to product codes;
  - `get_name` records the customer name;
  - `get_phone_and_save` builds the order, saves it and clears the session;
- the order store (`load_orders` and `save_order`), which rewrites the whole JSON file on every save;
- the conversation handler's wiring: which handler a text reaches in each state, and what ending a conversation does.

The modules, file by file:

- `text.dfy` (`Text`): the string operations the entry handler relies on. These are
  - `str.strip()`, with Python's whitespace set;
  - `str.isdigit()` and `int()` on ASCII digit strings;
  - `str()` of a code, which is how the listing shows a code to the user.
- `catalog.dfy` (`Catalog`): `PRODUCTS` and the `next(...)` lookup.
- `orders.dfy` (`Orders`): the order record, plus the orders file as `Option<seq<Order>>` (`None` while the file does not exist). The class `OrderStore` holds the file; `LoadOrders` and `SaveOrder` are its methods.
- `conversation.dfy` (`Conversation`): the conversation of one user as pure functions.
  - `Classify` is the decision of `handle_message`.
  - `Step` is one message in any state: the new state and session, the reply kind, and the order handed to the store.
  - `Run` folds `Step` over a sequence of messages and the orders file.
  - `Consistent` is the invariant tying a state to the session keys it needs.
- `bot.dfy` (`Bot`): the class `ShopBot` with the mutable state.
  - `conversations` is the conversation handler's table. An ended conversation is removed from it.
  - `userData` is every user's `user_data`.
  - `store` is the orders file.
  - The three handler methods change `userData` and the file in place, and each is proved equal to `Step`.
  - `Receive` routes a message to the handler for the user's state.
  - `Valid()` holds whenever a message arrives. It guarantees that `get_phone_and_save` always finds the session keys it reads.

The clock reading that `save_order` writes into each record is a parameter (`now`).

Two behaviours of the code are worth stating explicitly, and the model keeps both:

- While the bot waits for the name or the phone, a menu label is taken as the name or phone (`main.py:132-135`). Both states register `filters.TEXT` and there are no fallbacks.
- An idle user's text that is neither a menu label nor all digits gets no reply (`main.py:86`).

## Model

| member | source | states |
|---|---|---|
| Text.IsSpace | main.py:63 | exactly the characters for which Python's `str.isspace()` holds, which `str.strip()` removes. It has no contract of its own; `Text.Strip` and `Text.StripIsSlice` state how stripping uses it |
| Text.Strip | main.py:63 | the stripped text has no whitespace at either end and is no longer than the input |
| Text.StripIsSlice | main.py:63 | the stripped text is the slice of the input that starts after the leading whitespace; everything cut off on both sides is whitespace |
| Text.StripPadding | main.py:63 | stripping a trimmed text surrounded by whitespace returns exactly that text |
| Text.StripIgnoresPadding | main.py:63 | adding whitespace around any text does not change what stripping returns |
| Text.DecimalText | main.py:57 | the code as the listing shows it is a non-empty string of digits, with a leading zero only for 0 |
| Text.DecimalRoundTrip | main.py:72-73 | `int()` reads back the number that `str()` wrote, for every natural number |
| Text.LeadingZeros | main.py:72-73 | any number of leading zeros keeps the text all digits and does not change the value `int()` reads |
| Catalog.FindById | main.py:74 | the result is `None` exactly when no product has the code; otherwise it is a product with that code, and no earlier product has that code |
| Catalog.FindByIdExact | main.py:74 | in a catalog with unique codes, looking up a product's code returns that product |
| Catalog.ProductsWellFormed | main.py:13-26 | the shop's product codes are unique and positive |
| Text.IsDigits | main.py:72 | `str.isdigit()` on ASCII text: non-empty and all digits. It has no contract of its own; `Conversation.ClassifySpec` states how the entry handler uses it |
| Text.DecimalValue | main.py:73 | `int()` on digit text. It has no contract of its own; `Text.DecimalRoundTrip` and `Text.LeadingZeros` state what it reads |
| Conversation.Classify | main.py:63-86 | the decision of the entry handler, with its tests in the source's order. `Conversation.ClassifySpec` states its contract |
| Conversation.ClassifySpec | main.py:62-86 | full characterisation of the entry handler's decision in terms of the stripped text: menu label, known code (the product with that value), unknown code, or anything else |
| Conversation.ClassifyIgnoresPadding | main.py:63 | whitespace around a message does not change how the entry handler reads it |
| Conversation.CodeSelects | main.py:72-75 | all-digit text whose value is a catalog code selects that product |
| Conversation.CatalogCodeSelects | main.py:72-75 | a product's code as the listing shows it selects that product, even with leading zeros and surrounding whitespace |
| Conversation.PaddedCodeSelectsFirstProduct | main.py:63-75 | the message " 01 " selects the first product |
| Conversation.NewOrder | main.py:98-104 | the record built from the pending product, the name and the phone, before it is stamped. `Conversation.PhoneSavesOrder` and `Bot.ShopBot.GetPhoneAndSave` state its use |
| Conversation.Step | main.py:129-136 | one message keeps the state/session invariant; an order is saved iff the user was waiting for the phone; the name is awaited next iff the user was idle and sent a known code |
| Conversation.Deposit | main.py:34-39 | the orders file after the handler's save is the old list followed by the stamped order, or unchanged when nothing was saved |
| Conversation.Run | main.py:129-136 | any sequence of messages keeps the invariant and only appends to the orders file |
| Conversation.MenuLabelEndsConversation | main.py:65-70 | when idle, a menu label sends the listing or the contact details, leaves the state and session unchanged and saves nothing |
| Conversation.KnownCodeSelects | main.py:72-83 | when idle, a known code stores the product as the pending order, replies with it and waits for the name |
| Conversation.OtherTextChangesNothing | main.py:84-86 | when idle, any other text changes nothing and saves nothing; only all-digit text gets the "not found" reply |
| Conversation.UnknownCodeNotFound | main.py:84-86 | the message "99" gets "not found" and leaves the user idle |
| Conversation.AnyTextIsTheName | main.py:88-91 | when waiting for the name, any text, unstripped and menu labels included, becomes the customer name, and the bot asks for the phone |
| Conversation.PhoneSavesOrder | main.py:93-117 | when waiting for the phone, exactly the order built from the pending product, the stored name and the text is saved and confirmed; the session is emptied and the conversation ends |
| Conversation.CompletedConversationSavesOneOrder | main.py:93-117 | code, then name, then phone, from an empty session, ends idle with an empty session and exactly one new stamped record holding that product, name and phone |
| Conversation.MenuMessagesNeverSave | main.py:65-70 | any number of menu-label messages to an idle user change nothing and save nothing |
| Orders.Stamp | main.py:36 | the stored record carries the clock reading and is otherwise the record the caller gave |
| Orders.Load | main.py:28-32 | what `load_orders` returns for a file state. `Orders.SaveAllAppends` and `Orders.SaveRoundTrip` state what it returns after saves |
| Orders.SaveAll | main.py:34-39 | the file after `save_order` is called once for each (order, clock reading) pair, in order. It has no contract of its own; `Orders.SaveAllAppends` and `Orders.SaveRoundTrip` state what it holds |
| Orders.SaveAllAppends | main.py:34-39 | successive saves keep every earlier record in place and append one stamped record per save, in order |
| Orders.SaveRoundTrip | main.py:28-39 | saving N orders into a missing file and loading gives back those N orders, field for field and in order, each with its save-time timestamp |
| Orders.OrderStore.LoadOrders | main.py:28-32 | returns the stored list, or the empty list when the file does not exist |
| Orders.OrderStore.SaveOrder | main.py:34-39 | afterwards the file exists and holds the old records unchanged followed by exactly the stamped new one |
| Bot.ShopBot.HandleMessage | main.py:62-86 | the returned state, the reply and the new `user_data` are those of `Step` from an idle state |
| Bot.ShopBot.GetName | main.py:88-91 | only the user's `customer_name` changes, to the text; the bot moves to waiting for the phone and asks for it |
| Bot.ShopBot.GetPhoneAndSave | main.py:93-117 | the file gains exactly the order built from the session and the text; the reply confirms that order; the user's `user_data` is cleared; the conversation ends |
| Bot.ShopBot.Receive | main.py:129-136 | the user's new state and session, the reply and the new file are those of `Step`; the invariant is kept; every other user is unchanged |

## Left out

- The Telegram transport: the wording, HTML and reply keyboards of the messages. `Reply` records only which message is sent.
- `start` (`main.py:41-48`) and the text `show_products` builds (`main.py:50-60`). Showing the listing is the `ProductList` reply. The only listing property modelled is how a code is written (`Text.DecimalText`).
- `main()`: the `BOT_TOKEN` check, building the application and polling. `start` is not modelled. In the source, `CommandHandler("start")` is registered ahead of the conversation handler (`main.py:138-139`), so `/start` in any state gets the greeting and leaves the conversation alone. The model ignores `/start` while idle and takes it as the name or phone mid-conversation. Any other command from an idle user reaches no handler in the source. In the model it reaches the entry handler, which ignores it (no reply, no change).
- Non-text messages: the filters admit only text, and the model's messages are text.
- JSON encoding and the file system. The file is either missing or holds a list of orders. An unreadable or corrupt file, a file that holds something other than a list, and a failed write (an exception the handler does not catch) are not modelled.
- Conversation.Step, Bot.ShopBot.GetPhoneAndSave, Bot.ShopBot.HandleMessage: every reply is assumed to be sent. In the source a failed send raises, and the handler stops at that point.
  - The confirmation (`main.py:107-115`) is sent after `save_order` (`main.py:105`) and before `user_data.clear()` (`main.py:116`). It puts the unescaped name and phone into HTML, so a name such as `<x>` can make the send fail. The user then stays waiting for the phone with the order already saved, and the next text saves a second order.
  - In the entry handler, `pending_order` is set (`main.py:76`) before the reply (`main.py:77`). A failed reply leaves an idle user with a non-empty session. The model's idle-means-empty invariant (`Conversation.Consistent`) does not cover that state.
- Bot.ShopBot.GetPhoneAndSave: it requires both session keys to be present, where the source raises `KeyError` without them. `Receive` proves they are always present when that handler is reached.
- Concurrency: the source has no lock around its read-modify-write of the orders file, so two orders saved at once can lose one. The model handles one message at a time.
- The text of the clock reading (`datetime.now().strftime(...)`). It is the `now` parameter.
- Aliasing: `save_order` adds the timestamp to the caller's dictionary in place. The model passes the order by value, and `OrderStore.SaveOrder` stores a stamped copy.
- Unicode digits. `str.isdigit()` and `int()` also accept non-ASCII decimal digits, such as Persian `۱`, and `isdigit()` accepts superscripts, on which `int()` fails. The model's digits are ASCII `'0'..'9'` only.
- The framework keys a conversation by chat and user, and `user_data` by user. The model keys both by user, which is the same thing in a private chat.
- Non-empty order fields: the source does not check them, so the model has no such invariant. A blank name or phone is stored as given.
