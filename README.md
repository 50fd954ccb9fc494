# SOIL storefront: a Dafny model of its client-side logic

SOIL is an organic-grocery storefront written in React. This project models
the logic that decides what the shopper sees and what is sent to the store's
server:

- the cart hook (`useCart`): lines of product id and quantity, the badge
  count, and the priced cart display;
- the cart page, the add-to-cart gate and the checkout form: its submit
  callback's Luhn check on the card number, and the expiry-date check the
  form's field rules call;
- the category page, with its `parseInt` of the route parameter, the product
  filter and the heading;
- the review rules: stripping HTML tags, trimming, the word counter, the
  100-word cap and the order of the error messages;
- the four review and reply forms, and the product page's follow, edit and
  delete state;
- the follow button, and how the page wires its handlers into it;
- the energy-expenditure hook (`useTdee`, the Mifflin-St Jeor formula) and
  the meal planner that builds its Spoonacular request from that value.

How things are modelled:

- Text the browser holds is UTF-16 code units.
- JavaScript's `NaN` is a value of its own.
- Each component whose handlers manage React state is a Dafny class. Every
  handler is a method that states the whole new state as a function of the
  old one. The checkout form keeps no state of its own in the model: its
  submit callback returns what it does as an outcome.
- Server replies are parameters of the methods: a cart request's
  `Response` or its rejection, whether a call threw, the HTTP status of a
  rejected call, or a map from meal id to the recipe-details reply. The
  model never talks to the network.

Each operation is paired with something independent that pins it down:

- the cart functions: the invariants they keep (no repeated product, positive
  quantities), and the badge count as the number of distinct products;
- the Luhn loop: the mod-10 weighted sum of ISO/IEC 7812-1 Annex B, which
  catches every single-digit error;
- `parseInt`: its round trip through decimal spelling;
- the word counter: a count of alphanumeric runs;
- the expiry check: `split`/`join` and two-digit padding round trips;
- each form handler: a decision function, plus lemmas that tie the forms
  to each other;
- the meal-image map: the set of meals whose details arrived.

## Model

| member | source | states |
|---|---|---|
| Common.Plus | src/fragments/CreditCardForm.js:65 | adding two JS numbers gives `NaN` exactly when either is `NaN`, otherwise their sum |
| Common.TrimStart | src/utility/validateReview.js:15 | the result is a suffix of the input, empty exactly when the input is all JS whitespace, and starts with a non-whitespace unit; `TrimStartDropsWhitespace` shows the dropped prefix is whitespace |
| Common.TrimEnd | src/utility/validateReview.js:15 | the result is a prefix of the input, empty exactly when the input is all whitespace, and ends with a non-whitespace unit; `TrimEndDropsWhitespace` shows the dropped suffix is whitespace |
| Common.Trim | src/utility/validateReview.js:15 | `trim()` is empty exactly when the text is all whitespace; otherwise neither end is whitespace; `TrimIsInfix` shows the result is a stretch of the text with only whitespace around it |
| Common.TrimStartDropsWhitespace | src/utility/validateReview.js:15 | every unit `trimStart` drops from the front is JS whitespace |
| Common.TrimEndDropsWhitespace | src/utility/validateReview.js:15 | every unit `trimEnd` drops from the back is JS whitespace |
| Common.TrimIsInfix | src/utility/validateReview.js:15 | what `trim()` keeps is one contiguous stretch of the text, with only whitespace before and after it |
| Common.TrimUnchanged | src/utility/validateReview.js:26 | text with no whitespace at either end is its own trim |
| Common.DecimalValueOfNatToString | src/pages/CategoryProducts.js:72 | the decimal spelling of a number reads back as that number |
| Common.NatToString | src/utility/validateReview.js:34 | the `${count}` spelling of a natural number: at least one unit, all of them decimal digits |
| Common.IntToString | src/utility/validateReview.js:34 | the `${n}` spelling of an integer: a leading `-` exactly when it is negative, decimal digits after it |
| Common.AlertClass | src/hooks/useAlert.js:14 | the class name is "alert alert-success" for a success and "alert alert-danger" otherwise (no ensures; the body is the choice) |
| WordCounting.Words | src/utility/countWords.js:17-32 | the two-state scan; it counts at most one word per two code units, rounded up, since words need a separator between them |
| WordCounting.WordCount | src/utility/countWords.js:9-34 | `countWords`: 0 for blank text, else the scan from the outside-a-word state; never more than half the length, rounded up |
| WordCounting.CountWords | src/utility/countWords.js:9-34 | the loop, with its blank-text shortcut and its skip past `\` and `-`, returns the word count of the scan |
| WordCounting.WordsFrom | src/utility/countWords.js:17-32 | the scan from index `i` counts the words of the rest of the text |
| WordCounting.BlankCountsZero | src/utility/countWords.js:10-12 | all-whitespace text has no words |
| WordCounting.WordCountIsScan | src/utility/countWords.js:10-12 | the blank-text shortcut never changes the scan's answer |
| WordCounting.CountsRunsWithoutMarks | src/utility/countWords.js:17-31 | without `\` or `-`, the count is the number of maximal runs of ASCII letters and digits |
| WordCounting.SeparatorEndsWord | src/utility/countWords.js:29-31 | a character that is neither a letter, a digit nor a mark ends the current word |
| WordCounting.MarkSkipsNext | src/utility/countWords.js:19-22 | a `\` or `-` makes the counter skip the next character and keep its state |
| WordCounting.CountAtMostAlnum | src/utility/countWords.js:24-28 | there are never more words than letters and digits |
| WordCounting.HyphenatedWordIsOne | src/utility/countWords.js:19-22 | "well-known" counts as one word |
| WordCounting.HyphenSwallowsWord | src/utility/countWords.js:19-22 | in "a -b" the `-` swallows the `b`, so the count is one |
| ReviewValidation.StripTags | src/utility/validateReview.js:26 | `replace(/<(.\|\n)*?>/g, "")`: each closable `<` goes with everything up to its first `>`, an unclosable `<` is kept; the result is never longer than the text |
| ReviewValidation.Visible | src/utility/validateReview.js:26 | the stripped and trimmed content; empty exactly when what is left after stripping is all whitespace, and never longer than the content |
| ReviewValidation.ValidateReview | src/utility/validateReview.js:14-39 | `validateReview`: the blank-title, rating, empty-content and 100-word checks in that order, with the message of the first that fails, or none |
| ReviewValidation.CloseAt | src/utility/validateReview.js:26 | the lazy `<(.\|\n)*?>` closes at the first `>`, passing no line terminator other than `\n` |
| ReviewValidation.StripTagsKeepsPlainText | src/utility/validateReview.js:26 | text without `<` is left alone by the tag replacement |
| ReviewValidation.NoTagSurvives | src/utility/validateReview.js:26 | a `<` left in the result has no closing `>` after it that the pattern could reach |
| ReviewValidation.StripsWholeTag | src/utility/validateReview.js:26 | a complete tag is removed together with its brackets |
| ReviewValidation.EmptyParagraphStripsToNothing | src/utility/validateReview.js:26 | the editor's blank paragraph `<p><br></p>` strips to nothing |
| ReviewValidation.CarriageReturnBlocksTag | src/utility/validateReview.js:26 | a `\r` inside brackets stops the match, so that text is kept |
| ReviewValidation.ValidateReviewCases | src/utility/validateReview.js:14-39 | accepts exactly a non-blank title, a nonzero rating, visible content and at most 100 words; otherwise gives the first failing check's message in that order |
| ReviewValidation.EmptyParagraphRejected | src/utility/validateReview.js:26-29 | a review of only `<p><br></p>` is refused as empty |
| ReviewValidation.DottedWords | src/utility/countWords.js:17-32 | the text "a.a.…a." of `n` words counts `n` |
| ReviewValidation.WordCapIsInclusive | src/utility/validateReview.js:31-36 | a review of `n` words passes exactly when `n <= 100`, otherwise it is refused with the count in the message |
| ReviewValidation.TooManyWords | src/utility/validateReview.js:33-35 | the over-limit message: the fixed text followed by the decimal count (no ensures; `WordCapIsInclusive` states when it is given) |
| ReviewApi.ErrorText | src/fragments/ReviewForm.js:71-75 | a 404 or 403 shows the server's error text; any other status shows the form's generic text |
| ReviewApi.ServerTextOnlyFor404And403 | src/fragments/ReviewForm.js:71-75 | the shown text differs from the generic text only for a 404 or a 403 |
| ReviewForm.SubmitDecision | src/fragments/ReviewForm.js:41-60 | validation is checked first, then the login; the review is sent exactly when both pass, with title, text, stars, product and user id |
| ReviewForm.ReviewFormState.constructor | src/fragments/ReviewForm.js:21-24 | the form starts empty, with rating 0 and no error |
| ReviewForm.ReviewFormState.ResetReviewContent | src/fragments/ReviewForm.js:29-34 | clears text, title, rating and error |
| ReviewForm.ReviewFormState.HandleReviewSubmit | src/fragments/ReviewForm.js:41-77 | a refusal sets the message and sends nothing; a send notifies the page and resets the form exactly when the server accepts, and otherwise shows the error text |
| ReviewForm.LoggedOutSeesValidationFirst | src/fragments/ReviewForm.js:44-51 | a logged-out user with a blank review sees the empty-review message, not the login message |
| ReviewForm.HundredWordsAreSent | src/fragments/ReviewForm.js:44-60 | a logged-in user's 100-word review is sent |
| ReviewForm.HundredAndOneWordsRefused | src/fragments/ReviewForm.js:44-46 | a 101-word review is refused with the word-count message, logged in or not |
| ReviewEditForm.EditDecision | src/fragments/ReviewEditForm.js:43-54 | an edit is sent exactly when it validates, carrying title, text, stars and user id |
| ReviewEditForm.ReviewEditFormState.constructor | src/fragments/ReviewEditForm.js:28-33 | the form opens with the review's text, title and stars |
| ReviewEditForm.ReviewEditFormState.HandleReviewEdit | src/fragments/ReviewEditForm.js:41-72 | without a user nothing changes; a refusal sets the message; an accepted edit closes the form and empties the fields but keeps the error text; a rejected one shows the error text |
| ReviewEditForm.EditRefusesLikePost | src/fragments/ReviewEditForm.js:50-54 | for a logged-in user, editing refuses exactly what posting refuses, with the same message, and sends the same fields minus the product |
| ReviewEditForm.BlankEditRefused | src/fragments/ReviewEditForm.js:50-54 | an edit down to the blank paragraph is refused as empty |
| ReviewReplyForm.ReplyDecision | src/fragments/ReviewReplyForm.js:42-57 | an empty reply is refused first, a logged-out user second; otherwise the reply is sent with product, user and parent id |
| ReviewReplyForm.ReviewReplyFormState.constructor | src/fragments/ReviewReplyForm.js:24-25 | the reply form starts empty with no error |
| ReviewReplyForm.ReviewReplyFormState.ResetReplyContent | src/fragments/ReviewReplyForm.js:30-33 | clears the reply and the error |
| ReviewReplyForm.ReviewReplyFormState.HandleReplySubmit | src/fragments/ReviewReplyForm.js:40-73 | a refusal sets the message; an accepted reply notifies the page and resets the form; a rejected one shows the error text and keeps the reply |
| ReviewReplyForm.BlankEditorReplyIsSent | src/fragments/ReviewReplyForm.js:42-45 | only the empty string counts as empty: a blank paragraph, with nothing visible, is sent |
| ReviewReplyEditForm.ReplyEditDecision | src/fragments/ReviewReplyEditForm.js:34-42 | the only check is the login; the text, empty or not, is sent with the user id |
| ReviewReplyEditForm.ReviewReplyEditFormState.constructor | src/fragments/ReviewReplyEditForm.js:23-24 | the form opens with the reply's text |
| ReviewReplyEditForm.ReviewReplyEditFormState.HandleReplyEditSubmit | src/fragments/ReviewReplyEditForm.js:31-58 | the reply text is never changed; a refusal sets the message; an accepted edit notifies and closes; a rejected one shows the error text |
| ReviewReplyEditForm.EmptyEditIsSent | src/fragments/ReviewReplyEditForm.js:34-45 | an empty reply that the reply form refuses is sent by the edit form |
| Cart.AddLine | src/hooks/useCart.js:53-64 | a successful add: the product's first line gains one unit, or a line of 1 is appended; the length grows exactly when the product was absent, and the product is in the cart afterwards |
| Cart.RemoveLines | src/hooks/useCart.js:78-80 | the `filter`: no longer than before, and no line for the product is left |
| Cart.SetQuantity | src/hooks/useCart.js:145-150 | a successful update: the product's first line takes the quantity; same length and the same product on every line |
| Cart.DisplayCartItem | src/hooks/useCart.js:88-101 | `displayCartItem` over the details the server returned: one view per detail and the `reduce` of the line totals |
| Cart.ItemView | src/hooks/useCart.js:90-97 | the `map` callback: the product's id, name, price and image, the line's quantity, and price times quantity as the line total (no ensures; `DisplayTotals` states what the views add up to) |
| Cart.FoldTotal | src/hooks/useCart.js:99 | the `reduce` of the line totals from a starting value (no ensures; `FoldTotalSplits` and `DisplayTotals` state what it computes) |
| Cart.IndexOf | src/hooks/useCart.js:54-56 | `find` gives the first line with that product, or none exactly when no line has it |
| Cart.NotificationCount | src/hooks/useCart.js:131-133 | the badge count: the number of lines |
| Cart.CountIsDistinctProducts | src/hooks/useCart.js:127-133 | with no product repeated, the badge count is the number of distinct products |
| Cart.CartStore.constructor | src/hooks/useCart.js:16-18 | the cart starts with no lines and count 0 |
| Cart.CartStore.SyncCount | src/hooks/useCart.js:35-38 | the count is recomputed from the lines, and the lines stay as they were |
| Cart.CartStore.FetchItems | src/hooks/useCart.js:20-33 | the fetched lines replace the cart when there is a cart id and the fetch succeeded; otherwise nothing changes |
| Cart.CartStore.Find | src/hooks/useCart.js:54-56 | the search loop finds the same line as `IndexOf` |
| Cart.CartStore.AddToCart | src/hooks/useCart.js:47-67 | an answered request hands back the server's reply, and on success the product's quantity goes up by one or a new line of 1 is appended; a rejected request rejects the call and leaves the lines |
| Cart.CartStore.RemoveFromCart | src/hooks/useCart.js:75-81 | once the request resolves, every line of the product is dropped and the others keep their order; a rejected request leaves the lines |
| Cart.CartStore.UpdateCartItemQuantity | src/hooks/useCart.js:142-154 | on a success reply the product's line takes the new quantity, and an absent product changes nothing; a rejected request rejects the call and leaves the lines |
| Cart.CartStore.CartSubmit | src/hooks/useCart.js:108-115 | a successful submit empties the cart and the reply is passed back; a rejected request rejects the call and leaves the lines |
| Cart.CartStore.ClearCartItems | src/hooks/useCart.js:120-123 | no lines and count 0 |
| Cart.AddToExisting | src/hooks/useCart.js:54-58 | adding a product already in the cart raises that line by one and leaves every other line alone |
| Cart.AddNew | src/hooks/useCart.js:59-61 | adding a new product appends a line of quantity 1 |
| Cart.AddIds | src/hooks/useCart.js:53-64 | after an add the cart holds the old products plus the added one |
| Cart.AddPreservesDistinct | src/hooks/useCart.js:53-64 | adding keeps every product on one line |
| Cart.AddPreservesPositive | src/hooks/useCart.js:53-64 | adding keeps every quantity at least 1 |
| Cart.RemoveKeepsOthers | src/hooks/useCart.js:78-80 | a line survives removal exactly when it was there and is for another product |
| Cart.RemoveDistributes | src/hooks/useCart.js:78-80 | removing from two parts of the cart is removing from each part |
| Cart.RemoveAbsent | src/hooks/useCart.js:78-80 | removing an absent product changes nothing |
| Cart.RemovePreservesDistinct | src/hooks/useCart.js:78-80 | removal keeps every product on one line |
| Cart.SetOnExisting | src/hooks/useCart.js:145-150 | the product's line takes the quantity and every other line is left alone |
| Cart.SetOnAbsent | src/hooks/useCart.js:147-149 | setting the quantity of an absent product changes nothing |
| Cart.SetPreserves | src/hooks/useCart.js:145-150 | setting a quantity keeps products distinct, and keeps quantities positive when the new one is at least 1 |
| Cart.ItemViews | src/hooks/useCart.js:90-97 | one view per cart detail, each with its line total of price times quantity |
| Cart.DisplayTotals | src/hooks/useCart.js:88-101 | the display lists every line, and its total is the sum of price times quantity |
| Cart.DisplayTotalAdds | src/hooks/useCart.js:99 | the total of two carts joined is the sum of their totals |
| Cart.FoldTotalSplits | src/hooks/useCart.js:99 | the `reduce` over a joined list continues from the first part's result |
| CartPage.RequestedQuantity | src/pages/Cart.js:51-55 | increment asks for one more and decrement for one less; a request is made exactly when the new quantity is at least 1 |
| CartPage.Body | src/pages/Cart.js:78-114 | the total and checkout button show exactly when there are items |
| CartPage.CheckoutShownIffLines | src/pages/Cart.js:97 | checkout is offered exactly when the display has a line |
| CartPage.CartView.constructor | src/pages/Cart.js:17-18 | the page starts with no items and total 0 |
| CartPage.CartView.FetchCartItems | src/pages/Cart.js:34-38 | the page shows the display's items and total; when `getCartDetails` rejects it keeps what it showed |
| CartPage.CartView.HandleQuantityChange | src/pages/Cart.js:51-64 | below 1 nothing happens; otherwise the cart is asked to update: a rejected request rejects the handler with no alert and no reload, a failure reply alerts the server's message, and a success reply reloads the display (kept as it was when that reload rejects) |
| CartUtility.ReplyAlert | src/utility/cartUtility.js:29-33 | success shows "Item added to cart successfully!"; a failure shows the server's message |
| CartUtility.AddToCartGate | src/utility/cartUtility.js:10-34 | a logged-out user gets the login alert with the redirect and the cart is untouched; otherwise the item is added and the reply's alert is shown, and a rejected request shows no alert and leaves the cart |
| Payment.LuhnSum | src/fragments/CreditCardForm.js:53-67 | the sum the right-to-left loop builds, with every second character doubled and 9 taken off above 9; when it is a number it lies between 0 and 9 per character |
| Payment.LuhnValid | src/fragments/CreditCardForm.js:68 | `sum % 10 === 0`: the sum is a number and a multiple of 10 |
| Payment.DigitValue | src/fragments/CreditCardForm.js:57 | `parseInt` of one character is a number exactly for `0`-`9` |
| Payment.Contribution | src/fragments/CreditCardForm.js:59-64 | doubling with the 9 taken off keeps a digit a digit and keeps `NaN` as `NaN` |
| Payment.ValidateLuhnAlgorithm | src/fragments/CreditCardForm.js:52-69 | the right-to-left loop answers `LuhnValid` |
| Payment.ContributionIsWeight | src/fragments/CreditCardForm.js:59-64 | a digit's contribution is its Annex B weight |
| Payment.LuhnSumIsAnnexB | src/fragments/CreditCardForm.js:53-67 | the sum is a number exactly when every character is a digit, and then it is the Annex B weighted sum |
| Payment.LuhnIsMod10 | src/fragments/CreditCardForm.js:52-69 | a card number passes exactly when every character is a digit and the weighted sum is a multiple of 10 |
| Payment.AnnexBAppend | src/fragments/CreditCardForm.js:56-67 | the weighted sum of a joined number splits into its parts, the first part shifted by the second's parity |
| Payment.DocumentedExampleValid | src/fragments/CreditCardForm.js:28 | the documented example "4263982640269299" passes |
| Payment.SingleDigitErrorDetected | src/fragments/CreditCardForm.js:52-69 | changing one digit of a valid number to another digit makes it fail |
| Payment.NonDigitRejected | src/fragments/CreditCardForm.js:57-68 | any non-digit character, a space or a dash included, makes the number fail |
| Payment.IsExpireDateValid | src/fragments/CreditCardForm.js:77-102 | the first two `/` pieces must each be two digits, the month 1 to 12, the year not before the current one, and in the current year the month not before the current one |
| Payment.Split | src/fragments/CreditCardForm.js:78 | `split("/")` gives at least one piece, none containing a slash |
| Payment.JoinSplit | src/fragments/CreditCardForm.js:78 | joining the pieces with slashes gives back the text |
| Payment.SplitAfterPiece | src/fragments/CreditCardForm.js:78 | a slash-free piece followed by a slash is the first piece, and the rest splits on its own |
| Payment.Pad2RoundTrip | src/fragments/CreditCardForm.js:83-89 | `Number` of a two-digit string and two-digit padding undo each other |
| Payment.IsTwoDigits | src/fragments/CreditCardForm.js:83 | `/^\d{2}$/`: exactly two ASCII digits (no ensures; a predicate) |
| Payment.TwoDigitValue | src/fragments/CreditCardForm.js:88-89 | `Number` of two digits is below 100, and `Pad2RoundTrip` shows it is the value they spell |
| Payment.FormattedExpiry | src/fragments/CreditCardForm.js:77-102 | "MM/YY" passes exactly when the month is 1 to 12 and the date is not before the current month |
| Payment.CurrentYearMonths | src/fragments/CreditCardForm.js:92-99 | in the current year, a month passes exactly when it is not before the current month |
| Payment.NoSlashRejected | src/fragments/CreditCardForm.js:78-85 | text without a slash has no year and fails |
| Payment.OnSubmit | src/fragments/CreditCardForm.js:31-44 | an invalid card sets the card error and submits nothing; a valid one submits the cart, then alerts on a failure reply or goes to the confirmation page; a rejected submit shows nothing, goes nowhere and leaves the cart |
| Tdee.Bmr | src/hooks/useTdee.js:17-25 | Mifflin-St Jeor: 10 weight + 6.25 height - 5 age, plus 5 for "male" and minus 161 for "female"; 0 for any other gender |
| Tdee.TdeeOf | src/hooks/useTdee.js:49-63 | the BMR times the activity factor times the goal factor, rounded as `Math.round` rounds |
| Tdee.ActivityFactor | src/hooks/useTdee.js:31-48 | the activity factor is between 1.2 and 1.9 |
| Tdee.GoalFactor | src/hooks/useTdee.js:52-62 | the goal factor is between 0.8 and 1.2 |
| Tdee.Round | src/hooks/useTdee.js:63 | `Math.round` is within half a unit, and halves round up |
| Tdee.TdeeStore.constructor | src/hooks/useTdee.js:9 | no value before a calculation |
| Tdee.TdeeStore.CalculateTdee | src/hooks/useTdee.js:15-68 | stores the rounded formula for the profile |
| Tdee.TdeeStore.GetTdee | src/hooks/useTdee.js:77-79 | `getTdee` returns the stored value, `None` before any calculation (no ensures; a getter) |
| Tdee.MaleMinusFemale | src/hooks/useTdee.js:21-25 | the male and female BMR differ by exactly 166 |
| Tdee.UnknownGenderIsZero | src/hooks/useTdee.js:17-25 | any other gender leaves BMR, and so the result, at 0 |
| Tdee.ActivityLevelsOrdered | src/hooks/useTdee.js:31-48 | sedentary < light < moderate < very < extra, and unknown levels count as sedentary |
| Tdee.GoalsOrdered | src/hooks/useTdee.js:52-62 | weight loss < any other goal < muscle gain |
| Tdee.RoundMonotone | src/hooks/useTdee.js:63 | rounding keeps order |
| Tdee.MonotoneInWeight | src/hooks/useTdee.js:21-63 | more weight never lowers the result |
| Tdee.MonotoneInHeight | src/hooks/useTdee.js:21-63 | more height never lowers the result |
| Tdee.AntitoneInAge | src/hooks/useTdee.js:21-63 | more age never raises the result |
| Tdee.PositiveWithinBounds | src/pages/UserPersonalised.js:78-120 | within the form's ranges for age, weight and height, the result is at least 277 |
| Tdee.LinkedExample | src/hooks/useTdee.js:5 | the linked example (male, 30 years, 65 kg, 171 cm, sedentary) gives 1889 |
| Catalogue.ParseInt | src/pages/CategoryProducts.js:72 | `parseInt` of the route parameter; a missing one is `NaN` |
| Catalogue.ParseIntText | src/pages/CategoryProducts.js:72 | `parseInt` of a text: leading whitespace skipped, one optional sign, then the magnitude, `NaN` without digits (no ensures; `ParseUnsigned`, `ParseNegative`, `ParseDigits` and `ParseIntOfSpelling` state its cases) |
| Catalogue.Magnitude | src/pages/CategoryProducts.js:72 | the digits after the sign: a `0x` or `0X` prefix selects base 16, the longest digit run is the value, none gives no number (no ensures; `ParseDigits` and `ParseIntIgnoresTail` state it) |
| Catalogue.DigitIn | src/pages/CategoryProducts.js:72 | a digit's value is below the radix |
| Catalogue.DigitRun | src/pages/CategoryProducts.js:72 | the digit run is the longest prefix of digits |
| Catalogue.ParseUnsigned | src/pages/CategoryProducts.js:72 | without a sign, `parseInt` is the value of the leading digits, or `NaN` when there are none |
| Catalogue.ParseNegative | src/pages/CategoryProducts.js:72 | a leading `-` negates the rest |
| Catalogue.ParseDigits | src/pages/CategoryProducts.js:72 | digits followed by a non-digit parse as their value |
| Catalogue.ParseIntOfSpelling | src/pages/CategoryProducts.js:72 | the decimal spelling of any integer parses back to it |
| Catalogue.ParseIntIgnoresTail | src/pages/CategoryProducts.js:72 | characters after the digits (other than a hex prefix) are ignored |
| Catalogue.Keeps | src/pages/CategoryProducts.js:79-83 | "All" keeps every product, "Specials" the special ones, any other text the products whose category is its `parseInt` |
| Catalogue.FilteredProducts | src/pages/CategoryProducts.js:79-83 | `products.filter` with that test; never longer than the catalogue |
| Catalogue.NameOfId | src/pages/CategoryProducts.js:71-74 | the name of the first category whose id is the number, or "Unknown Category" |
| Catalogue.GetCategoryName | src/pages/CategoryProducts.js:69-77 | `getCategoryName`: the name for the parameter's `parseInt` |
| Catalogue.Heading | src/pages/CategoryProducts.js:95-99 | "All Products" for "All", "Weekly Specials" for "Specials", otherwise the category name |
| Catalogue.FilterIsSublist | src/pages/CategoryProducts.js:79-83 | the listed products are the catalogue in its order with some left out |
| Catalogue.FilterMembers | src/pages/CategoryProducts.js:79-83 | a product is listed exactly when it is in the catalogue and the filter keeps it |
| Catalogue.FilterAppend | src/pages/CategoryProducts.js:79-83 | filtering two parts of the catalogue joined is filtering each part and joining the results |
| Catalogue.FilterCounts | src/pages/CategoryProducts.js:79-83 | a kept product is listed as many times as the catalogue holds it; a dropped one not at all |
| Catalogue.AllListsEverything | src/pages/CategoryProducts.js:80 | "All" lists the whole catalogue in order |
| Catalogue.SpecialsListsSpecials | src/pages/CategoryProducts.js:81 | "Specials" lists exactly the special products |
| Catalogue.ByCategoryId | src/pages/CategoryProducts.js:82 | any other parameter lists exactly the products whose category is its parsed value |
| Catalogue.NaNListsNothing | src/pages/CategoryProducts.js:82 | a parameter that parses to `NaN` lists nothing |
| Catalogue.CategoryNameIsFirstMatch | src/pages/CategoryProducts.js:69-77 | the name is that of the first category with the parsed id |
| Catalogue.CategoryNameUnknown | src/pages/CategoryProducts.js:74 | with no category matching, the name is "Unknown Category" |
| Catalogue.HeadingNamesListedCategory | src/pages/CategoryProducts.js:79-99 | for a category id the heading names the first category with that id, and the page lists exactly that category's products |
| Catalogue.FixedHeadings | src/pages/CategoryProducts.js:95-99 | "All" is titled "All Products" and "Specials" "Weekly Specials" |
| Catalogue.NoParameter | src/pages/CategoryProducts.js:69-99 | with no parameter the heading is "Unknown Category" and nothing is listed |
| FollowButton.ClickHandler | src/fragments/FollowButton.js:29-54 | the button calls unfollow exactly when a logged-in user clicks on someone else while following; otherwise it calls follow |
| FollowButton.AfterClick | src/fragments/FollowButton.js:29-54 | the flag flips exactly when a logged-in user clicks on someone else and the awaited handler returns normally |
| FollowButton.Label | src/fragments/FollowButton.js:63 | "Unfollow" exactly while following, "Follow" otherwise |
| FollowButton.FollowButtonState.constructor | src/fragments/FollowButton.js:21 | the flag starts from the prop |
| FollowButton.FollowButtonState.SyncProp | src/fragments/FollowButton.js:22-24 | a new prop overwrites the flag |
| FollowButton.FollowButtonState.HandleClick | src/fragments/FollowButton.js:29-55 | calls the handler `ClickHandler` picks, and moves the flag as `AfterClick` says |
| FollowButton.LabelNamesAction | src/fragments/FollowButton.js:40-63 | for a logged-in user on someone else, the label names the handler the click calls |
| FollowButton.FlagMatchesHandler | src/fragments/FollowButton.js:40-54 | after a normal return the flag says following exactly when follow was called |
| FollowButton.TwoClicksRestore | src/fragments/FollowButton.js:40-54 | two successful clicks bring the flag back |
| FollowButton.OwnOrAnonymousClicksKeepFlag | src/fragments/FollowButton.js:30-38 | a logged-out user or the author calls follow and the flag stays |
| ProductPage.FollowStatus | src/pages/Product.js:94-108 | the `followStatus` object built over the reviews: each author other than the user gets that lookup's answer, and one failed lookup fails the whole `Promise.all` |
| ProductPage.ShowsFollowButton | src/pages/Product.js:348 | the follow button shows for a logged-in user on someone else's review |
| ProductPage.ShowsOwnerControls | src/pages/Product.js:405-407 | the edit and delete buttons show for the author of a live post |
| ProductPage.ShowsEditForm | src/pages/Product.js:427-429 | the edit form shows for a nonzero review id that is being edited and a live review |
| ProductPage.DeleteActs | src/pages/Product.js:257 | a delete goes ahead only with something chosen and a user with a nonzero id |
| ProductPage.FollowStatusIsAnswers | src/pages/Product.js:94-108 | the follow map fails exactly when some lookup fails; otherwise its keys are the other authors and each value is that lookup's answer |
| ProductPage.IsFollowingProp | src/pages/Product.js:351-353 | the prop is true exactly when the map has the author set to true |
| ProductPage.ControlsExclusive | src/pages/Product.js:348-407 | the follow button and the owner's edit and delete controls never show together; a logged-in user sees one of them on a live review |
| ProductPage.EveryButtonHasStatus | src/pages/Product.js:94-108 | after a successful fetch, every review with a follow button has an entry in the map, and its prop is the lookup's answer |
| ProductPage.ProductPageState.constructor | src/pages/Product.js:53-61 | no reviews, empty follow map, nothing being edited or deleted |
| ProductPage.ProductPageState.FetchReviews | src/pages/Product.js:89-112 | a fetched list replaces the reviews; the map becomes the lookups' answers and is kept when there is no user or a lookup fails; a failed fetch changes nothing |
| ProductPage.ProductPageState.HandleFollow | src/pages/Product.js:126-145 | a logged-out user and self-follow get their alerts and no call; otherwise `followUser` is called and, unless it throws, the author is set to true |
| ProductPage.ProductPageState.HandleUnfollow | src/pages/Product.js:152-161 | `unfollowUser` is called for a logged-in user and, unless it throws, the author is set to false; each outcome has its toast |
| ProductPage.Toast | src/pages/Product.js:128-159 | every alert of the follow handlers is `triggerAlert(message, isSuccess, 3000)`: shown for three seconds, with no follow-up action (no ensures; the body is the record) |
| ProductPage.ProductPageState.HandleEditClick | src/pages/Product.js:168-170 | marks the review as being edited |
| ProductPage.ProductPageState.HandleCancelEdit | src/pages/Product.js:175-177 | nothing is being edited |
| ProductPage.ProductPageState.SetReviewToDelete | src/fragments/ReviewDelete.js:20 | remembers the review to delete |
| ProductPage.ProductPageState.SetReplyToDelete | src/fragments/ReplyDelete.js:19 | remembers the reply to delete |
| ProductPage.ProductPageState.HandleDeleteReply | src/pages/Product.js:256-267 | with a reply chosen and a user with a nonzero id, `deleteReply` is called, the list is refetched unless it threw, and the choice is cleared; otherwise nothing happens |
| ProductPage.ProductPageState.HandleConfirmDeleteReview | src/pages/Product.js:272-283 | the same for a chosen review and `deleteReview` |
| ProductPage.ProductPageState.OnConfirmDelete | src/pages/Product.js:550-553 | a chosen review is deleted in preference to a chosen reply |
| ProductPage.ProductPageState.OnCancel | src/pages/Product.js:554-557 | clears both choices |
| FollowWiring.FailedFollowShowsUnfollow | src/fragments/FollowButton.js:47-54 | as written, a `followUser` that throws still turns the button to "Unfollow" while the page's prop stays false |
| FollowWiring.RethrowKeepsButtonInStep | src/pages/Product.js:137-144 | with handlers that rethrow, a button in step with the page's map stays in step after any click |
| FollowWiring.ClickOnPage | src/fragments/FollowButton.js:29-55 | with the corrected page handlers that rethrow a failed call (the source's handlers catch it instead), a click runs the chosen handler, then the button's own rule; the map and the flag end as the two rules say, and they stay in step |
| FollowWiring.PageMapAfterClick | src/pages/Product.js:126-160 | the page's follow map after a click: unchanged for a logged-out user, a self-follow or a call that throws, otherwise the author set to the opposite of the current flag (no ensures; `ClickOnPage` and `FailedFollowShowsUnfollow` use it) |
| FollowWiring.PageHandlerRejects | src/pages/Product.js:137-160 | the page's handlers never reject, since each `catch` only alerts (no ensures; `FailedFollowShowsUnfollow` shows what that does to the button) |
| MealPlanner.TdeeText | src/pages/MealPlanner.js:52 | how the template literal writes the value: its decimal digits, or "null" |
| MealPlanner.BaseUrl | src/pages/MealPlanner.js:52-54 | the generate endpoint with the key, the target calories and the time frame |
| MealPlanner.SendsDiet | src/pages/MealPlanner.js:55 | a diet is sent when it is neither empty nor "none" |
| MealPlanner.MealPlanUrl | src/pages/MealPlanner.js:51-57 | the base URL, followed by `&diet=` and the diet when one is sent |
| MealPlanner.ShouldFetch | src/pages/MealPlanner.js:28 | the effect fetches for a present, nonzero value |
| MealPlanner.MealsToFetch | src/pages/MealPlanner.js:88-97 | the days of a weekly plan that has a week, else the one day of a plan with meals, else nothing |
| MealPlanner.ImagesOf | src/pages/MealPlanner.js:99-169 | the image map over the meals: a meal whose details arrived gets its image, or the default when it has none |
| MealPlanner.MealTypeLabel | src/pages/MealPlanner.js:214 | `mealTypes[index % mealTypes.length]` |
| MealPlanner.Capitalize | src/pages/MealPlanner.js:325 | the first character upper-cased and the rest kept |
| MealPlanner.TimeFrameParam | src/pages/MealPlanner.js:52-54 | "day" exactly for "daily", otherwise "week" |
| MealPlanner.DietParameter | src/pages/MealPlanner.js:55-57 | a diet other than "" and "none" is appended as `&diet=`; otherwise the URL is the base URL |
| MealPlanner.DietsDistinguished | src/pages/MealPlanner.js:52-57 | two different diets that are both sent give two different URLs |
| MealPlanner.TimeFramesDistinguished | src/pages/MealPlanner.js:52-54 | daily and any other time frame give different URLs |
| MealPlanner.ProfileEnablesPlanner | src/pages/MealPlanner.js:27-31 | a profile within the form's ranges gives a value that starts the fetch |
| MealPlanner.ImageFor | src/pages/MealPlanner.js:113-121 | a meal gets an entry exactly when its details arrived; the image, or the default when it has none |
| MealPlanner.ImagesFallBack | src/pages/MealPlanner.js:99-169 | the image map has exactly the fetched meals whose details arrived, each with its image or the default |
| MealPlanner.MealTypesCycle | src/pages/MealPlanner.js:180-214 | labels run Breakfast, Lunch, Dinner and repeat |
| MealPlanner.UpperAscii | src/pages/MealPlanner.js:325 | lower-case ASCII letters become upper case; other characters stay |
| MealPlanner.CapitalizeFirstOnly | src/pages/MealPlanner.js:325 | only the first character changes, and capitalising twice is capitalising once |
| MealPlanner.CapitalizeMonday | src/pages/MealPlanner.js:325 | "monday" is shown as "Monday" |
| MealPlanner.DayHeadings | src/pages/MealPlanner.js:321-326 | one heading per day: its capitalised name and a colon |
| MealPlanner.View | src/pages/MealPlanner.js:307-347 | the alert box shows exactly when there is no plan; the week shows exactly for a weekly plan with a week |
| MealPlanner.MealPlannerState.constructor | src/pages/MealPlanner.js:5-25 | starts with the stored value, "daily", no diet, no plan, no images, no alert |
| MealPlanner.MealPlannerState.FetchMealDetails | src/pages/MealPlanner.js:85-170 | the image map becomes the images of every meal to fetch, and nothing else changes |
| MealPlanner.MealPlannerState.FetchMealPlan | src/pages/MealPlanner.js:50-83 | requests the URL for the current state; 402 shows the quota alert and drops the plan; an ok reply stores the plan, hides the alert and fetches images; a throw drops the plan; any other status changes nothing |
| MealPlanner.MealPlannerState.FetchEffect | src/pages/MealPlanner.js:27-31 | fetches exactly when there is a nonzero value |
| MealPlanner.MealPlannerState.SetTimeFrame | src/pages/MealPlanner.js:279 | sets the time frame only |
| MealPlanner.MealPlannerState.SetDietaryPreference | src/pages/MealPlanner.js:293 | sets the diet only |

## Left out

- HTTP calls, `localStorage` and the environment's API key are parameters. The model covers how a reply or a thrown error changes the state. It does not cover the request itself.
- Promise ordering and concurrency are not modelled. The concurrent lookups in `fetchReviews` and `fetchMealDetails` are taken as all finished. A lookup that throws is an error of the whole `Promise.all`. `setMealNutrients` is not modelled.
- Timers are not modelled: the alert's `setTimeout` and the redirect after the login alert. The alert is reduced to its message, success flag, duration and whether it redirects.
- Rendering, CSS classes and the Quill editor's HTML are left out beyond the decisions the model states: which controls show and which text a label shows.
- Censoring of review text is not part of this model.
- The home page's shuffle, login, registration, profile and order-summary pages are left out. So are the router and `PrivateRoutes`.
- Cart.CartStore.AddToCart: in the source, the hook changes the old line objects in place, and the copied array shares them. The model works on values, so it does not show that sharing.
- Cart.DisplayTotals: prices are JavaScript floating-point numbers. The model takes them as integers, for example cents, and drops the `toFixed(2)` formatting.
- Payment.OnSubmit: the form is submitted through react-hook-form's `handleSubmit`, which checks every field rule before this callback runs: a required 16-digit card number, a required `MM/YY` expiry that must pass `isExpireDateValid`, and a required 3-digit CVV. Those rules are not modelled, so the model covers the callback only; in the program an empty or short card number or an expired date never reaches it.
- Tdee.Round: the formula is over real numbers. IEEE rounding error is not modelled.
- Tdee.TdeeStore.CalculateTdee: the effect that writes the value to `localStorage` is left out.
- MealPlanner.MealPlannerState.constructor: the stored value is read with `parseFloat`. The model takes it as a whole number.
- MealPlanner.UpperAscii: `toUpperCase` is modelled for ASCII only.
- The test-data branch of the meal planner is guarded by a constant that is false, so it and the default plan data are left out.
- Catalogue.ParseIntIgnoresTail: `parseInt` loses precision for values beyond 2^53. The model keeps exact integers.
- In `fetchReviews` and the two delete handlers, the contents of a refetch after a delete are not modelled. The handlers return only whether a refetch was asked for.
- The reply's own edit and reply toggles (`replyReviewId`, `editReplyId`) and the product fetch's loading and error state are left out.
- The review and reply forms' field `onChange` setters are left out. They are plain assignments.

Where the code and its comments or texts disagree, the model follows the code:

- the reply form's generic error says "update" although it creates;
- the review edit form's generic error says "create";
- the edit form keeps its error text after a successful edit;
- `handleUnfollow` has no login guard. Without a user it throws before calling, and only the failure toast is shown;
- the meal planner's alert box shows whenever there is no plan, whatever `showAlert` says.

## Findings

| source | as written | input that shows it | evidently intended | confidence | as-written member | corrected member |
|---|---|---|---|---|---|---|
| src/fragments/FollowButton.js:47-54 with src/pages/Product.js:137-144 | the page's `handleFollow` catches a failed `followUser`, so the button's `await` returns normally and it sets its flag to following | user 1 clicks Follow on user 2 and `followUser` throws: the button reads "Unfollow" while `followingUsers[2]` stays unset, so no prop change resyncs it | the button changes its flag only when the follow or unfollow happened, which needs the page's handlers to rethrow after alerting | medium, not executed | FollowWiring.FailedFollowShowsUnfollow | FollowWiring.RethrowKeepsButtonInStep |
