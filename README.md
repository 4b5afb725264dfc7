# ProductCatalogApp — a Dafny model of the catalog controller

ProductCatalogApp is a console program that keeps a list of products. Each product has a category, a name and a price. All the behaviour is in one class, `ProductCatalogController`:

- **`Run`** loops. It asks for a category, then a name, then a price, and adds the product. A category of `Q`, in either case, leaves the loop for the listing.
- **`GetUserInput`** reads a line and trims it. At end of input it gives the empty string.
- **`GetPriceInput`** re-prompts until `decimal.TryParse` accepts the line and the number is positive.
- **`DisplayProducts`** lists the products sorted by price with `OrderBy`, which is stable, and shows their total with `Sum`.
- **`HandleUserChoice`** reads a menu command: `P` adds, `S` searches, `Q` exits. Anything else is reported and read again.
- **`SearchProduct`** reads a name. It prints every product and highlights the ones whose name equals the query, ignoring case.

The model is split by what each part of the controller does:

| file | module | contents |
|---|---|---|
| `option.dfy` | `Options` | `Option` |
| `text.dfy` | `Text` | `Trim`, `GetUserInput`'s `UserInput`, `ToUpper`, the ordinal ignore-case comparison |
| `decimal.dfy` | `Decimal` | a parser for the number format `TryParse` accepts, and the price test `AcceptPrice` |
| `product.dfy` | `ProductModel` | `Product` |
| `queries.dfy` | `Queries` | the LINQ queries: `OrderByPrice` (a stable insertion sort), `Total`, `Matches` and the highlighted search screen `SearchView` |
| `controller.dfy` | `Controller` | the command constants, the menu parser and the class `ProductCatalogController` |

### The session model

The console is replaced by two parts:

- the finite sequence of lines it will deliver, `input`, with a read position `pos`;
- a log of what the session shows, `log`. The log holds events: added, listed, search shown, and errors by kind. Texts and colours are not modelled.

The source chains its screens by recursion: `Run` calls `DisplayProducts`, which calls `HandleUserChoice`, which calls `Run`, `SearchProduct` or itself. Here every screen is a method that leaves the session in a `Phase`. `Run` loops over the phases, and `Fuel` proves that the loop terminates.

At end of input the source loops forever. Its prompts see `""` or `null` on every read and keep re-prompting. The model stops there instead, in the phase `InputExhausted`, with nothing more stored.

The class invariant `Valid` holds after every step. It states what the add loop guarantees of each stored product:

- the category is trimmed and is not `Q`;
- the name is trimmed and not empty;
- the price is positive.

## Model

| member | source | states |
|---|---|---|
| Text.Trim | ProductCatalogApp/Controllers/ProductCatalogController.cs:51 | `String.Trim`, defined as `TrimEnd` of `TrimStart`; what it computes is stated by `Text.TrimShape`, `Text.TrimPadding` and `Text.TrimEmptyIffBlank` |
| Text.UserInput | ProductCatalogApp/Controllers/ProductCatalogController.cs:48-52 | `GetUserInput`: the trimmed line, or the empty string at end of input; `Text.UserInputUnpadded` states that the result is always trimmed |
| Text.Upper | ProductCatalogApp/Controllers/ProductCatalogController.cs:86 | `ToUpper`; `Text.UpperAt` states that it keeps the length and upper-cases each character |
| Text.EqualsIgnoreCase | ProductCatalogApp/Controllers/ProductCatalogController.cs:28 | the `OrdinalIgnoreCase` comparison, also used by the search at :111; `Text.UpperIsLetter` and `Controller.IsQuitIff` state which strings it equates with a single letter |
| Text.TrimShape | ProductCatalogApp/Controllers/ProductCatalogController.cs:51 | `Trim` keeps a contiguous part of the line, drops only white space on either side, and leaves no white space at either end |
| Text.TrimIdempotent | ProductCatalogApp/Controllers/ProductCatalogController.cs:51 | trimming a trimmed line changes nothing |
| Text.TrimUnpadded | ProductCatalogApp/Controllers/ProductCatalogController.cs:51 | a line without surrounding white space is its own trim |
| Text.TrimEmptyIffBlank | ProductCatalogApp/Controllers/ProductCatalogController.cs:35 | a line trims to the empty string exactly when `IsNullOrWhiteSpace` holds of it; after trimming, blank and empty are the same |
| Text.TrimStartPrefix | ProductCatalogApp/Controllers/ProductCatalogController.cs:51 | `TrimStart` removes exactly a leading run of white space |
| Text.TrimEndSuffix | ProductCatalogApp/Controllers/ProductCatalogController.cs:51 | `TrimEnd` removes exactly a trailing run of white space |
| Text.TrimPadding | ProductCatalogApp/Controllers/ProductCatalogController.cs:51 | white space put around a trimmed non-empty string is removed by `Trim`, giving that string back |
| Text.UserInputUnpadded | ProductCatalogApp/Controllers/ProductCatalogController.cs:48-52 | what `GetUserInput` returns, the empty string at end of input included, never starts or ends with white space |
| Text.UserInputTrimsExample | ProductCatalogApp.Tests/ProductCatalogControllerTests.cs:11-19 | `"  Electronics  "` is read as `"Electronics"` |
| Text.UpperAt | ProductCatalogApp/Controllers/ProductCatalogController.cs:86 | `ToUpper` keeps the length and upper-cases each character in place |
| Text.UpperIsLetter | ProductCatalogApp/Controllers/ProductCatalogController.cs:86-96 | a string upper-cases to one capital letter exactly when it is that letter in either case |
| Decimal.LeadingDigits | ProductCatalogApp/Controllers/ProductCatalogController.cs:59 | the length of the leading run of digits: everything before it is a digit, and the character after it is not |
| Decimal.ParseUnsigned | ProductCatalogApp/Controllers/ProductCatalogController.cs:59 | an accepted unsigned number is non-negative, non-empty and made of digits and a point only |
| Decimal.ParseDecimal | ProductCatalogApp/Controllers/ProductCatalogController.cs:59 | `TryParse` succeeds only on a line whose trimmed text is non-empty and all number characters, and gives a negative value only after a leading `-` |
| Decimal.AcceptPrice | ProductCatalogApp/Controllers/ProductCatalogController.cs:59-61 | a line is accepted as a price exactly when it parses to a number above zero, and the price is that number |
| Decimal.NatDigitsValue | ProductCatalogApp/Controllers/ProductCatalogController.cs:59 | reading back the decimal digits of `n` gives `n` |
| Decimal.PaddedDigitsValue | ProductCatalogApp/Controllers/ProductCatalogController.cs:59 | reading back `k` zero-padded digits of `r < 10^k` gives `r` |
| Decimal.AllDigitsUnpadded | ProductCatalogApp/Controllers/ProductCatalogController.cs:59 | a run of digits has no white space around it, so trimming keeps it |
| Decimal.ParseNatDigits | ProductCatalogApp/Controllers/ProductCatalogController.cs:59 | every natural number written in decimal parses back to itself |
| Decimal.ParseNegatedNatDigits | ProductCatalogApp/Controllers/ProductCatalogController.cs:59 | `-` followed by the digits of `n` parses to `-n` |
| Decimal.ParseDecimalUnsigned | ProductCatalogApp/Controllers/ProductCatalogController.cs:59 | an unsigned trimmed numeral is parsed by the unsigned reader alone |
| Decimal.LeadingDigitsIs | ProductCatalogApp/Controllers/ProductCatalogController.cs:59 | the leading digit run ends at the first non-digit |
| Decimal.ParseUnsignedPoint | ProductCatalogApp/Controllers/ProductCatalogController.cs:59 | `whole.frac` parses to `whole + frac / 10^|frac|` |
| Decimal.ParseDecimalPoint | ProductCatalogApp/Controllers/ProductCatalogController.cs:59 | digits, a point and digits, with nothing around them, parse to `whole + frac / 10^|frac|` |
| Decimal.ParseFixedPoint | ProductCatalogApp/Controllers/ProductCatalogController.cs:59 | every decimal with `k` fractional digits, written out, parses back to its value |
| Decimal.AcceptNatDigits | ProductCatalogApp/Controllers/ProductCatalogController.cs:59-61 | a written natural number is accepted as a price exactly when it is not zero |
| Decimal.RejectNegatedNatDigits | ProductCatalogApp/Controllers/ProductCatalogController.cs:59-63 | no negated whole number, `-0` included, is accepted as a price |
| Decimal.RejectLeadingMinus | ProductCatalogApp/Controllers/ProductCatalogController.cs:59-63 | a line whose number starts with `-` parses, if at all, to a value of at most zero, and is never accepted as a price, whatever follows the sign |
| Decimal.RejectNegativeFraction | ProductCatalogApp/Controllers/ProductCatalogController.cs:59-63 | `"-1.5"` parses to -1.5 and is refused |
| Decimal.RejectNonNumeral | ProductCatalogApp/Controllers/ProductCatalogController.cs:59-63 | a line whose trimmed text holds a character that cannot occur in a number is refused |
| Decimal.AcceptHundred | ProductCatalogApp.Tests/ProductCatalogControllerTests.cs:54-66 | `"100"` is a valid price |
| Decimal.AcceptFraction | ProductCatalogApp.Tests/ProductCatalogControllerTests.cs:32-41 | `"199.99"` is read as the price 199.99 |
| Decimal.RejectZeroAndNegative | ProductCatalogApp.Tests/ProductCatalogControllerTests.cs:54-66 | `"0"` and `"-10"` are not valid prices |
| Decimal.RejectLetters | ProductCatalogApp.Tests/ProductCatalogControllerTests.cs:54-66 | `"abc"` is not a valid price |
| Queries.OrderByPrice | ProductCatalogApp/Controllers/ProductCatalogController.cs:74 | `OrderBy(p => p.Price)`, an insertion sort that puts each entry before those of equal or higher price; `Queries.OrderByPriceSorts` states that it sorts and permutes, and `Queries.OrderByPriceStable` that it is stable |
| Queries.Total | ProductCatalogApp/Controllers/ProductCatalogController.cs:77 | `Sum(p => p.Price)`; `Queries.TotalOrderByPrice` states that it does not depend on the sort, and `Queries.TotalBounds` bounds it |
| Queries.InsertPermutes | ProductCatalogApp/Controllers/ProductCatalogController.cs:74 | one insertion step of the sort adds the new entry and keeps all the others |
| Queries.InsertSorted | ProductCatalogApp/Controllers/ProductCatalogController.cs:74 | inserting into a list sorted by price keeps it sorted |
| Queries.OrderByPriceSorts | ProductCatalogApp/Controllers/ProductCatalogController.cs:74 | the listing is sorted by ascending price and is a permutation of the stored products |
| Queries.WithPriceAppend | ProductCatalogApp/Controllers/ProductCatalogController.cs:74 | selecting one price class distributes over concatenation |
| Queries.InsertKeepsPriceClasses | ProductCatalogApp/Controllers/ProductCatalogController.cs:74 | an insertion never moves an entry past another of equal price |
| Queries.OrderByPriceStable | ProductCatalogApp/Controllers/ProductCatalogController.cs:74 | `OrderBy` is stable: for every price, the products with that price appear in the order they were added |
| Queries.TotalInsert | ProductCatalogApp/Controllers/ProductCatalogController.cs:77 | inserting a product adds its price to the total |
| Queries.TotalOrderByPrice | ProductCatalogApp/Controllers/ProductCatalogController.cs:74-77 | the total shown, summed over the sorted list, equals the total of the stored list |
| Queries.TotalBounds | ProductCatalogApp/Controllers/ProductCatalogController.cs:77 | with positive prices the total is 0 exactly for an empty catalog, positive otherwise, and at least every single price |
| Queries.Matches | ProductCatalogApp/Controllers/ProductCatalogController.cs:111 | the matches are never more than the products |
| Queries.MatchesExactly | ProductCatalogApp/Controllers/ProductCatalogController.cs:111 | a product is found exactly when it is stored and its name equals the query ignoring case, and it is found as often as it is stored |
| Queries.MatchesAppend | ProductCatalogApp/Controllers/ProductCatalogController.cs:111 | the matches keep the order of the product list |
| Queries.EmptyQueryMatchesNothing | ProductCatalogApp/Controllers/ProductCatalogController.cs:109-111 | when every stored name is non-empty, an empty search finds nothing |
| Queries.SearchView | ProductCatalogApp/Controllers/ProductCatalogController.cs:111-124 | the search screen shows every product, in the order added, and highlights a row exactly when its name equals the query ignoring case |
| Queries.DisplayExample | ProductCatalogApp/Controllers/ProductCatalogController.cs:74-77 | products priced 1200, 900 and 50 are listed as 50, 900, 1200, with total 2150 |
| Queries.SearchExample | ProductCatalogApp/Controllers/ProductCatalogController.cs:111 | searching `phone` among Laptop, Phone and Mouse finds Phone alone |
| Controller.IsQuit | ProductCatalogApp/Controllers/ProductCatalogController.cs:28 | the quit test at the category prompt, against `Commands.Quit` (:15); `Controller.IsQuitIff` states which strings pass it |
| Controller.ParseChoice | ProductCatalogApp/Controllers/ProductCatalogController.cs:86-103 | the menu's trim, `ToUpper` and `switch`; `Controller.ParseChoiceCases` and `Controller.ParseChoiceRecognises` state which lines choose which command |
| Controller.IsQuitIff | ProductCatalogApp/Controllers/ProductCatalogController.cs:28 | the quit test against `Commands.Quit` (:15) at the category prompt accepts `q` and `Q` and nothing else |
| Controller.ParseChoiceCases | ProductCatalogApp/Controllers/ProductCatalogController.cs:84-103 | the menu chooses add, search or quit exactly for `P`, `S` or `Q` in either case, after trimming |
| Controller.ParseChoiceRecognises | ProductCatalogApp/Controllers/ProductCatalogController.cs:86-103 | a menu line names a command exactly when its trimmed text is one of `p P s S q Q`; any other line reaches the default branch |
| Controller.FirstAcceptedLine | ProductCatalogApp/Controllers/ProductCatalogController.cs:56-64 | the line a re-prompting loop stops at: it is accepted and every line before it is refused; without one, every remaining line is refused |
| Controller.ProductCatalogController.constructor | ProductCatalogApp/Controllers/ProductCatalogController.cs:9 | a session starts with no products, nothing read and nothing shown |
| Controller.ProductCatalogController.ReadLine | ProductCatalogApp/Controllers/ProductCatalogController.cs:51 | a read returns the next line and advances, or returns `null` at end of input |
| Controller.ProductCatalogController.GetPriceInput | ProductCatalogApp/Controllers/ProductCatalogController.cs:54-65 | the price is the one on the first acceptable line, after one error per refused line; with no acceptable line, input is exhausted |
| Controller.ProductCatalogController.AddStep | ProductCatalogApp/Controllers/ProductCatalogController.cs:27-32 | a quit category goes to the listing with nothing stored; otherwise the pass goes on with the name; the class invariant holds and the session progresses |
| Controller.ProductCatalogController.AddNamed | ProductCatalogApp/Controllers/ProductCatalogController.cs:34-44 | a blank name is reported and stores nothing; otherwise the product built from the trimmed category, the trimmed name and the first accepted price is appended |
| Controller.ProductCatalogController.DisplayProducts | ProductCatalogApp/Controllers/ProductCatalogController.cs:67-82 | the listing shows the products sorted by price with their total, leaves the stored order as it is, and goes to the menu |
| Controller.ProductCatalogController.HandleUserChoice | ProductCatalogApp/Controllers/ProductCatalogController.cs:84-104 | after one error per unrecognised line, the first command line decides: add, search or exit |
| Controller.ProductCatalogController.ReadCommand | ProductCatalogApp/Controllers/ProductCatalogController.cs:86-101 | the menu re-reads until a line names a command, reporting each line that does not |
| Controller.ProductCatalogController.ReadChoice | ProductCatalogApp/Controllers/ProductCatalogController.cs:86-100 | one menu read: the command the line names, or one reported error |
| Controller.ProductCatalogController.SearchProduct | ProductCatalogApp/Controllers/ProductCatalogController.cs:106-128 | the search reads a trimmed query, shows the highlighted search screen for it, changes no product and returns to the menu |
| Controller.ProductCatalogController.Run | ProductCatalogApp/Controllers/ProductCatalogController.cs:18-46 | the session only ever appends products, every stored product meets the class invariant, and the session ends by quitting or at end of input |

## Left out

- Console output is modelled as a log of events. Prompt texts, colours and `Console.Clear` are not modelled.
- `Environment.Exit(0)` is modelled as the phase `Terminated`.
- The recursion between `Run`, `DisplayProducts`, `HandleUserChoice` and `SearchProduct` is flattened into a loop over phases. The call stack it grows is not modelled.
- At end of input the source loops forever. Every prompt sees an empty line, or `null` at the price prompt. The model stops in `InputExhausted` instead.
- `decimal.TryParse` depends on the current culture, for the decimal point and group separator. Its number style also allows thousands separators and a trailing sign, and it refuses values outside the range of `decimal`. The session takes the parser as the parameter `parse`, and every session lemma holds for any parser. `ParseDecimal` is the culture-independent instance the examples use: white space, an optional leading sign, digits and one decimal point.
- `decimal` is modelled as an exact `real`. Its 28-digit range and rounding, and an overflow of `Sum`, are not modelled.
- `String.Trim` and `char.IsWhiteSpace` are reduced to ASCII white space: tab to carriage return, and space. `ToUpper` and the ordinal ignore-case comparison are reduced to ASCII letters.
- `Product` is a class, compared by reference in `foundProducts.Contains`. The model compares values. The highlighting is the same either way, because every product equal to a match has the same name and so is a match itself.
- The test file calls `GetUserInput(prompt, TextReader)`, `ReadValidPrice` and `IsValidPrice`, which the controller does not define. It also expects `Q` to give `null` at the category and price prompts, which the controller does not do. The model follows the controller: only the tests' inputs and results are stated, as lemmas about `UserInput` and `AcceptPrice`.
- Controller.ProductCatalogController.Run: its contract states the invariant and the end states only. The effect of each pass is stated by the step methods it calls.

### Behaviour worth noting

These are facts about `ProductCatalogController.cs` that the model keeps:

- **Category:** an empty category is accepted (:27-43). Only `Q` in either case leaves the add loop (:28).
- **Name:** a blank name is reported, and the pass starts again from the category (:35-39).
- **Quit:** `Q` is honoured only at the category prompt (:28) and the menu (:96). At the price prompt `Q` is an invalid price and is read again (:59-63), and at the search prompt it is a query (:109-111). The tests expect `Q` to give `null` at the category and price prompts (ProductCatalogControllerTests.cs:21-52); the controller has no such path.
- **Search:**
  - it shows every product in insertion order, with the matches highlighted (:118-124), and no separate notice when nothing matches;
  - it goes back to the menu without listing the products again (:127).
