/**
 * The catalog session: the add loop, the price prompt, the listing, the menu and the search.
 * The source chains these by mutual recursion (`Run` calls `DisplayProducts`, which calls
 * `HandleUserChoice`, which calls `Run`, `SearchProduct` or itself); here each step leaves
 * the session in a phase and `Run` loops over the phases. Input is a finite sequence of lines.
 */
module Controller {
  import opened Options
  import opened Text
  import opened Decimal
  import opened ProductModel
  import opened Queries

  /** The `Commands` constants. */
  const AddProductKey: string := "P"
  const SearchProductKey: string := "S"
  const QuitKey: string := "Q"

  datatype Command = AddProduct | SearchProduct | Quit

  /** `s.Equals(Commands.Quit, StringComparison.OrdinalIgnoreCase)`. */
  predicate IsQuit(s: string) {
    EqualsIgnoreCase(s, QuitKey)
  }

  /** The quit test accepts `q` and `Q` and nothing else. */
  lemma IsQuitIff(s: string)
    ensures IsQuit(s) <==> s == "q" || s == "Q"
  {
    UpperIsLetter(s, 'Q');
    assert Upper(QuitKey) == "Q";
  }

  /** `HandleUserChoice`'s switch on `(line ?? "").Trim().ToUpper()`; `None` is the default branch. */
  function ParseChoice(line: Option<string>): Option<Command> {
    var choice := Upper(UserInput(line));
    if choice == AddProductKey then Some(AddProduct)
    else if choice == SearchProductKey then Some(SearchProduct)
    else if choice == QuitKey then Some(Quit)
    else None
  }

  /** Each command is chosen by its letter in either case, surrounding white space aside, and by nothing else. */
  lemma ParseChoiceCases(line: Option<string>)
    ensures ParseChoice(line) == Some(AddProduct) <==> UserInput(line) == "p" || UserInput(line) == "P"
    ensures ParseChoice(line) == Some(SearchProduct) <==> UserInput(line) == "s" || UserInput(line) == "S"
    ensures ParseChoice(line) == Some(Quit) <==> UserInput(line) == "q" || UserInput(line) == "Q"
  {
    UpperIsLetter(UserInput(line), 'P');
    UpperIsLetter(UserInput(line), 'S');
    UpperIsLetter(UserInput(line), 'Q');
  }

  /** A menu line is read as a command exactly when it is one of P, S, Q in either case. */
  lemma ParseChoiceRecognises(line: string)
    ensures ParseChoice(Some(line)).Some? <==> Trim(line) in {"p", "P", "s", "S", "q", "Q"}
  {
    ParseChoiceCases(Some(line));
  }

  /** The lines the price prompt accepts when numbers are read by `parse`. */
  function PriceLines(parse: string -> Option<real>): string -> bool {
    line => AcceptPrice(parse, line).Some?
  }

  /** A line the menu recognises as a command. */
  predicate CommandLine(line: string) {
    ParseChoice(Some(line)).Some?
  }

  /** The first line at or after `from` that `accept` admits; the prompts re-read until they find one. */
  function FirstAcceptedLine(lines: seq<string>, from: nat, accept: string -> bool): (r: Option<nat>)
    requires from <= |lines|
    ensures r.Some? ==> from <= r.value < |lines| && accept(lines[r.value])
    ensures r.Some? ==> forall k :: from <= k < r.value ==> !accept(lines[k])
    ensures r.None? ==> forall k :: from <= k < |lines| ==> !accept(lines[k])
    decreases |lines| - from
  {
    if from == |lines| then None
    else if accept(lines[from]) then Some(from)
    else FirstAcceptedLine(lines, from + 1, accept)
  }

  /** What the add loop guarantees of every product it stores. */
  predicate Stored(p: Product) {
    Unpadded(p.category) && !IsQuit(p.category) && Unpadded(p.name) && p.name != [] && p.price > 0.0
  }

  predicate AllStored(s: seq<Product>) {
    forall i :: 0 <= i < |s| ==> Stored(s[i])
  }

  /** The phases of a session. `Choosing` waits for a menu command; `InputExhausted` is where the source would re-prompt forever. */
  datatype Phase = Adding | Displaying | Choosing | Searching | Terminated | InputExhausted

  function Rank(phase: Phase): nat {
    match phase
    case Adding => 2
    case Displaying => 2
    case Searching => 2
    case Choosing => 1
    case Terminated => 0
    case InputExhausted => 0
  }

  /** The phase a recognised menu command leads to. */
  function PhaseAfter(c: Command): Phase {
    match c
    case AddProduct => Adding
    case SearchProduct => Searching
    case Quit => Terminated
  }

  datatype ErrorKind = EmptyName | InvalidPrice | InvalidChoice

  /** What the session shows, without its text and colours. */
  datatype Event =
    | Added(product: Product)
    | Listed(view: seq<Product>, total: real)
    | SearchShown(query: string, rows: seq<Row>)
    | Error(kind: ErrorKind)

  function Repeat(e: Event, n: nat): (r: seq<Event>)
    ensures |r| == n
  {
    if n == 0 then [] else Repeat(e, n - 1) + [e]
  }

  lemma RepeatSnoc(e: Event, n: nat)
    ensures Repeat(e, n) + [e] == Repeat(e, n + 1)
  {
  }

  class ProductCatalogController {
    /** The lines the console will deliver, in order. */
    const input: seq<string>
    /** How the price prompt reads a number: `decimal.TryParse`, which depends on the current culture. */
    const parse: string -> Option<real>
    /** How many of them have been read. */
    var pos: nat
    var products: seq<Product>
    var phase: Phase
    var log: seq<Event>

    ghost predicate Valid()
      reads this
    {
      pos <= |input| && AllStored(products)
    }

    /** Decreases with every step: each step reads a line or moves to a phase of lower rank. */
    ghost function Fuel(): nat
      reads this
      requires pos <= |input|
    {
      3 * (|input| - pos) + Rank(phase)
    }

    /** The line at position `k`, or `None` (the console's `null`) past the end of input. */
    function LineAt(k: nat): Option<string> {
      if k < |input| then Some(input[k]) else None
    }

    constructor (lines: seq<string>, parse: string -> Option<real>)
      ensures input == lines && this.parse == parse
      ensures pos == 0 && products == [] && phase == Adding && log == []
      ensures Valid()
    {
      input := lines;
      this.parse := parse;
      pos := 0;
      products := [];
      phase := Adding;
      log := [];
    }

    /** `Console.ReadLine()`. */
    method ReadLine() returns (line: Option<string>)
      requires pos <= |input|
      modifies this`pos
      ensures line == LineAt(old(pos))
      ensures pos == if old(pos) < |input| then old(pos) + 1 else old(pos)
    {
      if pos < |input| {
        line := Some(input[pos]);
        pos := pos + 1;
      } else {
        line := None;
      }
    }

    /** `GetPriceInput`: re-prompts, reporting an error per rejected line, until a line holds a positive number. */
    method GetPriceInput() returns (price: Option<real>)
      requires pos <= |input|
      modifies this`pos, this`log
      ensures pos <= |input|
      ensures price.Some? ==> price.value > 0.0
      ensures match FirstAcceptedLine(input, old(pos), PriceLines(parse))
        case Some(k) =>
          pos == k + 1 && price == AcceptPrice(parse, input[k])
          && log == old(log) + Repeat(Error(InvalidPrice), k - old(pos))
        case None =>
          pos == |input| && price == None
          && log == old(log) + Repeat(Error(InvalidPrice), |input| - old(pos))
    {
      while pos < |input|
        invariant old(pos) <= pos <= |input|
        invariant FirstAcceptedLine(input, old(pos), PriceLines(parse)) == FirstAcceptedLine(input, pos, PriceLines(parse))
        invariant log == old(log) + Repeat(Error(InvalidPrice), pos - old(pos))
        decreases |input| - pos
      {
        var line := ReadLine();
        assert line == Some(input[pos - 1]);
        price := AcceptPrice(parse, line.value);
        if price.Some? {
          assert FirstAcceptedLine(input, pos - 1, PriceLines(parse)) == Some(pos - 1);
          return;
        }
        assert FirstAcceptedLine(input, pos - 1, PriceLines(parse)) == FirstAcceptedLine(input, pos, PriceLines(parse));
        RepeatSnoc(Error(InvalidPrice), pos - 1 - old(pos));
        log := log + [Error(InvalidPrice)];
      }
      price := None;
      assert FirstAcceptedLine(input, pos, PriceLines(parse)) == None;
    }

    /** One pass of `Run`'s loop: category, then name, then price; a quit category leaves for the listing. */
    method AddStep()
      requires Valid() && phase == Adding
      modifies this`pos, this`products, this`phase, this`log
      ensures Valid() && Fuel() < old(Fuel())
      ensures old(products) <= products
      ensures old(pos) == |input| ==>
        phase == InputExhausted && pos == old(pos) && products == old(products) && log == old(log)
      ensures old(pos) < |input| && IsQuit(Trim(input[old(pos)])) ==>
        phase == Displaying && pos == old(pos) + 1 && products == old(products) && log == old(log)
      ensures old(pos) < |input| && !IsQuit(Trim(input[old(pos)])) ==>
        AddedAfterCategory(Trim(input[old(pos)]), old(pos) + 1, old(products), old(log))
    {
      var line := ReadLine();
      if line.None? {
        phase := InputExhausted;
        return;
      }
      var category := UserInput(line);
      UserInputUnpadded(line);
      if IsQuit(category) {
        phase := Displaying;
        return;
      }
      AddNamed(category);
    }

    /**
     * The state after the rest of an add pass, once `category` was read and the next line to read is `from`:
     * a blank name stores nothing and restarts the pass; otherwise the first accepted price completes the product.
     */
    ghost predicate AddedAfterCategory(category: string, from: nat, products0: seq<Product>, log0: seq<Event>)
      reads this
      requires from <= |input|
    {
      if IsBlank(UserInput(LineAt(from))) then
        phase == Adding && products == products0 && log == log0 + [Error(EmptyName)]
        && pos == (if from < |input| then from + 1 else from)
      else
        from < |input| &&
        match FirstAcceptedLine(input, from + 1, PriceLines(parse))
        case None =>
          phase == InputExhausted && pos == |input| && products == products0
          && log == log0 + Repeat(Error(InvalidPrice), |input| - (from + 1))
        case Some(k) =>
          var p := Product(category, Trim(input[from]), AcceptPrice(parse, input[k]).value);
          phase == Adding && pos == k + 1 && products == products0 + [p]
          && log == log0 + Repeat(Error(InvalidPrice), k - (from + 1)) + [Added(p)]
    }

    /** `Run`'s loop after the category: name, then price, then the new product. */
    method AddNamed(category: string)
      requires Valid() && phase == Adding && Unpadded(category) && !IsQuit(category)
      modifies this`pos, this`products, this`phase, this`log
      ensures Valid() && old(pos) <= pos && old(products) <= products
      ensures phase == Adding || phase == InputExhausted
      ensures AddedAfterCategory(category, old(pos), old(products), old(log))
    {
      var line := ReadLine();
      var name := UserInput(line);
      UserInputUnpadded(line);
      if IsBlank(name) {
        log := log + [Error(EmptyName)];
        return;
      }
      var price := GetPriceInput();
      if price.None? {
        phase := InputExhausted;
        return;
      }
      var p := Product(category, name, price.value);
      products := products + [p];
      log := log + [Added(p)];
    }

    /** `DisplayProducts`: the list sorted by price with its total; the stored order is kept. */
    method DisplayProducts()
      requires Valid() && phase == Displaying
      modifies this`phase, this`log
      ensures Valid() && Fuel() < old(Fuel())
      ensures phase == Choosing && products == old(products) && pos == old(pos)
      ensures log == old(log) + [Listed(OrderByPrice(products), Total(products))]
    {
      var sorted := OrderByPrice(products);
      var total := Total(sorted);
      TotalOrderByPrice(products);
      log := log + [Listed(sorted, total)];
      phase := Choosing;
    }

    /** `HandleUserChoice`: re-reads until a command arrives, then moves to the phase the command names. */
    method HandleUserChoice()
      requires Valid() && phase == Choosing
      modifies this`pos, this`phase, this`log
      ensures Valid() && Fuel() < old(Fuel())
      ensures products == old(products)
      ensures match FirstAcceptedLine(input, old(pos), CommandLine)
        case Some(k) =>
          pos == k + 1 && phase == PhaseAfter(ParseChoice(Some(input[k])).value)
          && log == old(log) + Repeat(Error(InvalidChoice), k - old(pos))
        case None =>
          pos == |input| && phase == InputExhausted
          && log == old(log) + Repeat(Error(InvalidChoice), |input| - old(pos))
    {
      var command := ReadCommand();
      phase := if command.Some? then PhaseAfter(command.value) else InputExhausted;
    }

    /** The menu's re-read loop: one error per line that names no command, until one does or input ends. */
    method ReadCommand() returns (command: Option<Command>)
      requires pos <= |input|
      modifies this`pos, this`log
      ensures pos <= |input|
      ensures match FirstAcceptedLine(input, old(pos), CommandLine)
        case Some(k) =>
          pos == k + 1 && command == ParseChoice(Some(input[k])) && command.Some?
          && log == old(log) + Repeat(Error(InvalidChoice), k - old(pos))
        case None =>
          pos == |input| && command == None
          && log == old(log) + Repeat(Error(InvalidChoice), |input| - old(pos))
    {
      while pos < |input|
        invariant old(pos) <= pos <= |input|
        invariant FirstAcceptedLine(input, old(pos), CommandLine) == FirstAcceptedLine(input, pos, CommandLine)
        invariant log == old(log) + Repeat(Error(InvalidChoice), pos - old(pos))
        decreases |input| - pos
      {
        command := ReadChoice();
        if command.Some? {
          return;
        }
        RepeatSnoc(Error(InvalidChoice), pos - 1 - old(pos));
      }
      command := None;
      assert FirstAcceptedLine(input, pos, CommandLine) == None;
    }

    /** One read of the menu: the command the line names, or an error reported for a line that names none. */
    method ReadChoice() returns (command: Option<Command>)
      requires pos < |input|
      modifies this`pos, this`log
      ensures pos == old(pos) + 1
      ensures command == ParseChoice(Some(input[old(pos)]))
      ensures command.Some? ==> FirstAcceptedLine(input, old(pos), CommandLine) == Some(old(pos))
      ensures command.None? ==> FirstAcceptedLine(input, old(pos), CommandLine) == FirstAcceptedLine(input, pos, CommandLine)
      ensures log == if command.Some? then old(log) else old(log) + [Error(InvalidChoice)]
    {
      var line := ReadLine();
      command := ParseChoice(line);
      if command.None? {
        log := log + [Error(InvalidChoice)];
      }
    }

    /** `SearchProduct`: reads a name and shows every product, highlighting those whose name matches. */
    method SearchProduct()
      requires Valid() && phase == Searching
      modifies this`pos, this`phase, this`log
      ensures Valid() && Fuel() < old(Fuel())
      ensures phase == Choosing && products == old(products)
      ensures pos == if old(pos) < |input| then old(pos) + 1 else old(pos)
      ensures var query := UserInput(LineAt(old(pos)));
        log == old(log) + [SearchShown(query, SearchView(products, query))]
    {
      var line := ReadLine();
      var query := UserInput(line);
      log := log + [SearchShown(query, SearchView(products, query))];
      phase := Choosing;
    }

    /** The whole session, from the current phase until quit or the end of input. */
    method Run()
      requires Valid()
      modifies this`pos, this`products, this`phase, this`log
      ensures Valid()
      ensures phase == Terminated || phase == InputExhausted
      ensures old(products) <= products
    {
      while phase != Terminated && phase != InputExhausted
        invariant Valid()
        invariant old(products) <= products
        decreases Fuel()
      {
        match phase {
          case Adding => AddStep();
          case Displaying => DisplayProducts();
          case Choosing => HandleUserChoice();
          case Searching => SearchProduct();
        }
      }
    }
  }
}
