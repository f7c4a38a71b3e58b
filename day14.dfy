/**
 * day14.py: the nanofactory. Reactions are parsed from lines such as
 * `"7 A, 1 B => 1 C"`; `produce` then runs reactions on demand, keeping two
 * balances per chemical: how much has been produced and how much consumed.
 */
module Day14 {
  import opened Wrappers
  import opened Decimal

  // ---------------------------------------------------------------- str.split

  /** `sep` occurs in `s` at index `i`. */
  predicate OccursAt(s: string, sep: string, i: nat)
  {
    i + |sep| <= |s| && s[i..i + |sep|] == sep
  }

  /** The first index from `i` on where `sep` occurs. */
  function FindFrom(s: string, sep: string, i: nat): (r: Option<nat>)
    ensures r.Some? ==> i <= r.value && OccursAt(s, sep, r.value)
    ensures r.Some? ==> forall j :: i <= j < r.value ==> !OccursAt(s, sep, j)
    ensures r.None? ==> forall j :: i <= j ==> !OccursAt(s, sep, j)
    decreases |s| - i
  {
    if i + |sep| > |s| then None
    else if s[i..i + |sep|] == sep then Some(i)
    else FindFrom(s, sep, i + 1)
  }

  /** `s.split(sep)`: the pieces between the leftmost non-overlapping occurrences of `sep`. */
  function Split(s: string, sep: string): (r: seq<string>)
    requires |sep| > 0
    ensures |r| >= 1
    decreases |s|
  {
    match FindFrom(s, sep, 0)
    case None => [s]
    case Some(i) => [s[..i]] + Split(s[i + |sep|..], sep)
  }

  /** `sep.join(parts)`. */
  function Join(parts: seq<string>, sep: string): string
  {
    if parts == [] then ""
    else if |parts| == 1 then parts[0]
    else parts[0] + sep + Join(parts[1..], sep)
  }

  /** The first piece ends at the first occurrence of the separator. */
  lemma {:induction false} SplitStep(s: string, sep: string, i: nat)
    requires |sep| > 0 && FindFrom(s, sep, 0) == Some(i)
    ensures Split(s, sep) == [s[..i]] + Split(s[i + |sep|..], sep)
  {
  }

  lemma {:induction false} JoinCons(x: string, t: seq<string>, sep: string)
    requires |t| >= 1
    ensures Join([x] + t, sep) == x + sep + Join(t, sep)
  {
    assert ([x] + t)[1..] == t;
  }

  /** An occurrence of `sep` at `i` cuts `s` into the part before, `sep`, and the part after. */
  lemma {:induction false} OccursAround(s: string, sep: string, i: nat)
    requires OccursAt(s, sep, i)
    ensures s == s[..i] + sep + s[i + |sep|..]
  {
    var t := s[..i] + sep + s[i + |sep|..];
    assert |t| == |s|;
    forall k | 0 <= k < |s|
      ensures t[k] == s[k]
    {
      if i <= k < i + |sep| {
        assert t[k] == sep[k - i] == s[i..i + |sep|][k - i];
      }
    }
  }

  /** Joining the pieces with the separator gives the string back. */
  lemma {:induction false} SplitJoin(s: string, sep: string)
    requires |sep| > 0
    ensures Join(Split(s, sep), sep) == s
    decreases |s|
  {
    var f := FindFrom(s, sep, 0);
    if f.Some? {
      var i := f.value;
      var rest := s[i + |sep|..];
      SplitJoin(rest, sep);
      SplitStep(s, sep, i);
      JoinCons(s[..i], Split(rest, sep), sep);
      OccursAround(s, sep, i);
    }
  }

  /**
   * `sep` cannot start before the end of `a` in `a + sep + b` when `a` lacks
   * the character `sep[k]` and so do the characters of `sep` before it.
   */
  lemma {:induction false} NoEarlyOccurrence(a: string, sep: string, b: string, k: nat, j: nat)
    requires k < |sep| && sep[k] !in a && sep[k] !in sep[..k]
    requires j < |a|
    ensures !OccursAt(a + sep + b, sep, j)
  {
    var s := a + sep + b;
    if j + k < |a| {
      assert s[j + k] == a[j + k];
    } else {
      assert s[j + k] == sep[j + k - |a|] == sep[..k][j + k - |a|];
    }
  }

  /** The first piece of `a + sep + b` is `a`. */
  lemma {:induction false} SplitFront(a: string, sep: string, b: string, k: nat)
    requires k < |sep| && sep[k] !in a && sep[k] !in sep[..k]
    ensures Split(a + sep + b, sep) == [a] + Split(b, sep)
  {
    var s := a + sep + b;
    forall j: nat | j < |a|
      ensures !OccursAt(s, sep, j)
    {
      NoEarlyOccurrence(a, sep, b, k, j);
    }
    assert s[|a|..|a| + |sep|] == sep;
    assert OccursAt(s, sep, |a|);
    assert FindFrom(s, sep, 0) == Some(|a|);
    assert s[..|a|] == a && s[|a| + |sep|..] == b;
  }

  /** A string lacking the character `sep[k]` is a single piece. */
  lemma {:induction false} SplitWhole(a: string, sep: string, k: nat)
    requires k < |sep| && sep[k] !in a
    ensures Split(a, sep) == [a]
  {
  }

  // ---------------------------------------------------------------- parse_reactions

  /** `{"quantity": q, "requires": [(chemical, amount), ...]}`; the requirements are `needs`. */
  datatype Reaction = Reaction(quantity: int, needs: seq<(string, int)>)

  type Reactions = map<string, Reaction>

  /** `amount, chemical = chemical_amount.split(" ")`, then `int(amount)`. */
  function ParseItem(item: string): Option<(string, int)>
  {
    var words := Split(item, " ");
    if |words| != 2 then None
    else match ParseInt(words[0])
      case None => None
      case Some(n) => Some((words[1], n))
  }

  /** The inner loop over `needed.split(", ")`, in order. */
  function ParseItems(items: seq<string>): Option<seq<(string, int)>>
  {
    if items == [] then Some([])
    else match (ParseItems(items[..|items| - 1]), ParseItem(items[|items| - 1]))
      case (Some(init), Some(last)) => Some(init + [last])
      case _ => None
  }

  /** One line: its product and its reaction; a malformed line raises `ValueError`. */
  function ParseLine(line: string): Option<(string, Reaction)>
  {
    var halves := Split(line, " => ");
    if |halves| != 2 then None
    else
      var out := Split(halves[1], " ");
      if |out| != 2 then None
      else match (ParseInt(out[0]), ParseItems(Split(halves[0], ", ")))
        case (Some(q), Some(needs)) => Some((out[1], Reaction(q, needs)))
        case _ => None
  }

  /** Each line parsed on its own. */
  function Parsed(lines: seq<string>): (r: seq<Option<(string, Reaction)>>)
    ensures |r| == |lines|
  {
    seq(|lines|, i requires 0 <= i < |lines| => ParseLine(lines[i]))
  }

  /** The dictionary after the first `n` parsed lines; a later line for a product replaces an earlier one. */
  function Collect(parsed: seq<Option<(string, Reaction)>>, n: nat): Option<Reactions>
    requires n <= |parsed|
  {
    if n == 0 then Some(map[])
    else match (Collect(parsed, n - 1), parsed[n - 1])
      case (Some(m), Some(line)) => Some(m[line.0 := line.1])
      case _ => None
  }

  /** The body of the loop over the lines: one line and the inner loop over its requirements. */
  method ParseOne(line: string) returns (r: Option<(string, Reaction)>)
    ensures r == ParseLine(line)
  {
    var halves := Split(line, " => ");
    if |halves| != 2 {
      return None;
    }
    var out := Split(halves[1], " ");
    if |out| != 2 {
      return None;
    }
    var quantity := ParseInt(out[0]);
    if quantity.None? {
      return None;
    }
    var items := Split(halves[0], ", ");
    var needs: seq<(string, int)> := [];
    for i := 0 to |items|
      invariant ParseItems(items[..i]) == Some(needs)
    {
      assert items[..i + 1][..i] == items[..i];
      var words := Split(items[i], " ");
      if |words| != 2 {
        ParseItemsFails(items, i);
        return None;
      }
      var amount := ParseInt(words[0]);
      if amount.None? {
        ParseItemsFails(items, i);
        return None;
      }
      needs := needs + [(words[1], amount.value)];
    }
    assert items[..|items|] == items;
    return Some((out[1], Reaction(quantity.value, needs)));
  }

  /** `parse_reactions`: the loop over the lines, each replacing the entry of its product. */
  method ParseReactions(raw: seq<string>) returns (r: Option<Reactions>)
    ensures r == Collect(Parsed(raw), |raw|)
  {
    var reactions: Reactions := map[];
    ghost var parsed := Parsed(raw);
    for n := 0 to |raw|
      invariant Collect(parsed, n) == Some(reactions)
    {
      var entry := ParseOne(raw[n]);
      assert parsed[n] == entry;
      if entry.None? {
        CollectDefined(parsed, |raw|);
        return None;
      }
      CollectStep(parsed, n, reactions);
      reactions := reactions[entry.value.0 := entry.value.1];
    }
    return Some(reactions);
  }

  /** One more parsed line replaces the entry of its product. */
  lemma {:induction false} CollectStep(parsed: seq<Option<(string, Reaction)>>, n: nat, m: Reactions)
    requires n < |parsed| && Collect(parsed, n) == Some(m) && parsed[n].Some?
    ensures Collect(parsed, n + 1) == Some(m[parsed[n].value.0 := parsed[n].value.1])
  {
  }

  /** One bad item makes the whole list fail. */
  lemma {:induction false} ParseItemsFails(items: seq<string>, i: nat)
    requires i < |items| && ParseItem(items[i]).None?
    ensures ParseItems(items).None?
    decreases |items|
  {
    if i < |items| - 1 {
      var init := items[..|items| - 1];
      assert init[i] == items[i];
      ParseItemsFails(init, i);
    }
  }

  /** The dictionary exists exactly when every line parses. */
  lemma {:induction false} CollectDefined(parsed: seq<Option<(string, Reaction)>>, n: nat)
    requires n <= |parsed|
    ensures Collect(parsed, n).Some? <==> forall i :: 0 <= i < n ==> parsed[i].Some?
  {
    if n > 0 {
      CollectDefined(parsed, n - 1);
    }
  }

  /** Each product maps to the reaction of the last line naming it, and only products of lines are keys. */
  lemma {:induction false} CollectLast(parsed: seq<Option<(string, Reaction)>>, n: nat, p: string)
    requires n <= |parsed| && Collect(parsed, n).Some?
    ensures p in Collect(parsed, n).value <==> exists i :: 0 <= i < n && parsed[i].Some? && parsed[i].value.0 == p
    ensures forall i :: (0 <= i < n && parsed[i].Some? && parsed[i].value.0 == p &&
      forall j :: i < j < n ==> parsed[j].Some? && parsed[j].value.0 != p) ==>
      p in Collect(parsed, n).value && Collect(parsed, n).value[p] == parsed[i].value.1
  {
    CollectDefined(parsed, n);
    if n > 0 {
      CollectLast(parsed, n - 1, p);
    }
  }

  // ---------------------------------------------------------------- rendering

  /** A chemical name that the separators cannot split. */
  predicate Name(c: string)
  {
    c != [] && ' ' !in c && ',' !in c && '=' !in c
  }

  /** `"n C"`. */
  function Item(item: (string, int)): string
  {
    IntStr(item.1) + " " + item.0
  }

  /** `"n1 C1, n2 C2, ..."`. */
  function Items(needs: seq<(string, int)>): string
    requires |needs| >= 1
  {
    if |needs| == 1 then Item(needs[0]) else Item(needs[0]) + ", " + Items(needs[1..])
  }

  /** The line `"n1 C1, ... => q P"` for a reaction. */
  function Line(product: string, r: Reaction): string
    requires |r.needs| >= 1
  {
    Items(r.needs) + " => " + (IntStr(r.quantity) + " " + product)
  }

  lemma {:induction false} IntStrPlain(n: int)
    ensures ' ' !in IntStr(n) && ',' !in IntStr(n) && '=' !in IntStr(n)
  {
    var s := IntStr(n);
    if n < 0 {
      assert forall i :: 1 <= i < |s| ==> s[i] == NatStr(-n)[i - 1];
    }
  }

  lemma {:induction false} ItemParses(item: (string, int))
    requires Name(item.0)
    ensures ',' !in Item(item) && '=' !in Item(item)
    ensures ParseItem(Item(item)) == Some(item)
  {
    IntStrPlain(item.1);
    SplitFront(IntStr(item.1), " ", item.0, 0);
    SplitWhole(item.0, " ", 0);
    ParseIntStr(item.1);
  }

  /** The rendered requirements split back into their items. */
  lemma {:induction false} ItemsSplit(needs: seq<(string, int)>)
    requires |needs| >= 1 && forall i :: 0 <= i < |needs| ==> Name(needs[i].0)
    ensures '=' !in Items(needs)
    ensures var pieces := Split(Items(needs), ", ");
      |pieces| == |needs| && forall i :: 0 <= i < |pieces| ==> pieces[i] == Item(needs[i])
  {
    ItemsNoEquals(needs);
    var strs := ItemStrs(needs);
    forall i | 0 <= i < |strs|
      ensures ',' !in strs[i]
    {
      ItemParses(needs[i]);
    }
    ItemsJoin(needs);
    JoinSplit(strs);
  }

  /** Each requirement written as `"n C"`. */
  function ItemStrs(needs: seq<(string, int)>): (r: seq<string>)
    ensures |r| == |needs|
  {
    seq(|needs|, i requires 0 <= i < |needs| => Item(needs[i]))
  }

  /** `Items` joins the written requirements with `", "`. */
  lemma {:induction false} ItemsJoin(needs: seq<(string, int)>)
    requires |needs| >= 1
    ensures Items(needs) == Join(ItemStrs(needs), ", ")
    decreases |needs|
  {
    if |needs| > 1 {
      var strs := ItemStrs(needs);
      ItemsJoin(needs[1..]);
      assert strs[1..] == ItemStrs(needs[1..]);
      assert strs[0] == Item(needs[0]);
      assert Join(strs, ", ") == strs[0] + ", " + Join(strs[1..], ", ");
    }
  }

  /** Pieces without a comma, joined with `", "`, split back into the same pieces. */
  lemma {:induction false} JoinSplit(pieces: seq<string>)
    requires |pieces| >= 1 && forall i :: 0 <= i < |pieces| ==> ',' !in pieces[i]
    ensures Split(Join(pieces, ", "), ", ") == pieces
    decreases |pieces|
  {
    if |pieces| == 1 {
      SplitWhole(pieces[0], ", ", 0);
    } else {
      JoinSplit(pieces[1..]);
      SplitFront(pieces[0], ", ", Join(pieces[1..], ", "), 0);
      assert Join(pieces, ", ") == pieces[0] + ", " + Join(pieces[1..], ", ");
      assert [pieces[0]] + pieces[1..] == pieces;
    }
  }

  /** The rendered requirements hold no `'='`. */
  lemma {:induction false} ItemsNoEquals(needs: seq<(string, int)>)
    requires |needs| >= 1 && forall i :: 0 <= i < |needs| ==> Name(needs[i].0)
    ensures '=' !in Items(needs)
    decreases |needs|
  {
    ItemParses(needs[0]);
    if |needs| > 1 {
      ItemsNoEquals(needs[1..]);
    }
  }

  /** Pieces that parse one by one parse as a list, in order. */
  lemma {:induction false} ParseItemsCons(pieces: seq<string>, needs: seq<(string, int)>)
    requires |pieces| == |needs|
    requires forall i :: 0 <= i < |pieces| ==> ParseItem(pieces[i]) == Some(needs[i])
    ensures ParseItems(pieces) == Some(needs)
    decreases |pieces|
  {
    if |pieces| > 0 {
      var n := |pieces|;
      ParseItemsCons(pieces[..n - 1], needs[..n - 1]);
      assert needs[..n - 1] + [needs[n - 1]] == needs;
    }
  }

  /** Parsing the line of a reaction gives back its product and the reaction, requirements in order. */
  lemma {:induction false} LineParses(product: string, r: Reaction)
    requires Name(product) && |r.needs| >= 1
    requires forall i :: 0 <= i < |r.needs| ==> Name(r.needs[i].0)
    ensures ParseLine(Line(product, r)) == Some((product, r))
  {
    var a := Items(r.needs);
    var b := IntStr(r.quantity) + " " + product;
    LineHalves(product, r);
    ProductParses(product, r.quantity);
    NeedsParse(r.needs);
    assert Split(Line(product, r), " => ") == [a, b];
  }

  /** The line splits at `" => "` into the requirements and the product part. */
  lemma {:induction false} LineHalves(product: string, r: Reaction)
    requires Name(product) && |r.needs| >= 1
    requires forall i :: 0 <= i < |r.needs| ==> Name(r.needs[i].0)
    ensures Split(Line(product, r), " => ") == [Items(r.needs), IntStr(r.quantity) + " " + product]
  {
    var b := IntStr(r.quantity) + " " + product;
    ItemsSplit(r.needs);
    IntStrPlain(r.quantity);
    assert " => "[..1] == " ";
    assert '=' !in b;
    SplitFront(Items(r.needs), " => ", b, 1);
    SplitWhole(b, " => ", 1);
  }

  /** The product part `"q P"` splits at its one space and gives back the quantity. */
  lemma {:induction false} ProductParses(product: string, q: int)
    requires Name(product)
    ensures Split(IntStr(q) + " " + product, " ") == [IntStr(q), product]
    ensures ParseInt(IntStr(q)) == Some(q)
  {
    IntStrPlain(q);
    SplitFront(IntStr(q), " ", product, 0);
    SplitWhole(product, " ", 0);
    ParseIntStr(q);
  }

  /** The written requirement list parses back to the requirements, in order. */
  lemma {:induction false} NeedsParse(needs: seq<(string, int)>)
    requires |needs| >= 1 && forall i :: 0 <= i < |needs| ==> Name(needs[i].0)
    ensures ParseItems(Split(Items(needs), ", ")) == Some(needs)
  {
    ItemsSplit(needs);
    var pieces := Split(Items(needs), ", ");
    forall i | 0 <= i < |pieces|
      ensures ParseItem(pieces[i]) == Some(needs[i])
    {
      ItemParses(needs[i]);
    }
    ParseItemsCons(pieces, needs);
  }

  // ---------------------------------------------------------------- produce

  const Ore := "ORE"

  /** The rank a caller assigns to a chemical; unlisted chemicals rank 0. */
  function RankOf(rank: map<string, nat>, c: string): nat
  {
    if c in rank then rank[c] else 0
  }

  /**
   * The reactions are acyclic with positive quantities: each requirement ranks
   * below its product. Without this `produce` need not terminate.
   */
  predicate Ranked(reactions: Reactions, rank: map<string, nat>)
  {
    forall p :: p in reactions && p != Ore ==>
      reactions[p].quantity > 0 &&
      forall i :: 0 <= i < |reactions[p].needs| ==>
        reactions[p].needs[i].1 > 0 && RankOf(rank, reactions[p].needs[i].0) < RankOf(rank, p)
  }

  /** Every chemical a reaction needs is ore or has a reaction. */
  predicate Closed(reactions: Reactions)
  {
    forall p :: p in reactions ==>
      forall i :: 0 <= i < |reactions[p].needs| ==>
        reactions[p].needs[i].0 == Ore || reactions[p].needs[i].0 in reactions
  }

  /** A lookup in a `defaultdict(int)`. */
  function Get(m: map<string, int>, c: string): int
  {
    if c in m then m[c] else 0
  }

  /** The two global balances `produced` and `consumed`. */
  class Nanofactory {
    var produced: map<string, int>
    var consumed: map<string, int>

    /** Never more of a chemical consumed than produced. */
    ghost predicate Valid()
      reads this
    {
      forall c :: Get(consumed, c) <= Get(produced, c)
    }

    /** What is left of a chemical. */
    function Stock(c: string): int
      reads this
    {
      Get(produced, c) - Get(consumed, c)
    }

    /** Both balances are empty, as after `clear()`. */
    constructor ()
      ensures produced == map[] && consumed == map[]
      ensures Valid()
    {
      produced := map[];
      consumed := map[];
    }

    /**
     * `produce(chemical, quantity, reactions)`: `false` when it raises
     * `KeyError` for a chemical without a reaction.
     */
    method Produce(chemical: string, quantity: int, reactions: Reactions, ghost rank: map<string, nat>) returns (ok: bool)
      requires Valid() && Ranked(reactions, rank)
      modifies this
      decreases RankOf(rank, chemical), 1
      ensures Valid()
      ensures quantity >= 0 ==> forall c :: Get(old(produced), c) <= Get(produced, c) && Get(old(consumed), c) <= Get(consumed, c)
      ensures forall c :: c != chemical && RankOf(rank, c) >= RankOf(rank, chemical) ==>
        Get(produced, c) == Get(old(produced), c) && Get(consumed, c) == Get(old(consumed), c)
      ensures old(Stock(chemical)) >= quantity ==>
        ok && produced == old(produced) && consumed == old(consumed)[chemical := Get(old(consumed), chemical) + quantity]
      ensures old(Stock(chemical)) < quantity && chemical == Ore ==>
        ok && produced == old(produced)[Ore := Get(old(produced), Ore) + quantity] && consumed == old(consumed)
      ensures old(Stock(chemical)) < quantity && chemical != Ore && chemical !in reactions ==>
        !ok && produced == old(produced) && consumed == old(consumed)
      ensures old(Stock(chemical)) < quantity && chemical != Ore && ok ==>
        chemical in reactions &&
        Get(produced, chemical) == Get(old(produced), chemical) + reactions[chemical].quantity &&
        Get(consumed, chemical) == Get(old(consumed), chemical)
      ensures old(Stock(chemical)) < quantity && chemical in reactions && Closed(reactions) ==> ok
    {
      if Get(produced, chemical) - Get(consumed, chemical) >= quantity {
        consumed := consumed[chemical := Get(consumed, chemical) + quantity];
        return true;
      }
      if chemical == Ore {
        produced := produced[chemical := Get(produced, chemical) + quantity];
        return true;
      }
      if chemical !in reactions {
        return false;
      }
      ok := ProduceByReaction(chemical, reactions, rank);
    }

    /** The loop over `reactions[chemical]["requires"]`, then `produced[chemical] += reactions[chemical]["quantity"]`. */
    method ProduceByReaction(chemical: string, reactions: Reactions, ghost rank: map<string, nat>) returns (ok: bool)
      requires Valid() && Ranked(reactions, rank) && chemical in reactions && chemical != Ore
      modifies this
      decreases RankOf(rank, chemical), 0
      ensures Valid()
      ensures forall c :: Get(old(produced), c) <= Get(produced, c) && Get(old(consumed), c) <= Get(consumed, c)
      ensures forall c :: c != chemical && RankOf(rank, c) >= RankOf(rank, chemical) ==>
        Get(produced, c) == Get(old(produced), c) && Get(consumed, c) == Get(old(consumed), c)
      ensures ok ==>
        Get(produced, chemical) == Get(old(produced), chemical) + reactions[chemical].quantity &&
        Get(consumed, chemical) == Get(old(consumed), chemical)
      ensures Closed(reactions) ==> ok
    {
      var needs := reactions[chemical].needs;
      for i := 0 to |needs|
        invariant Valid()
        invariant forall c :: Get(old(produced), c) <= Get(produced, c) && Get(old(consumed), c) <= Get(consumed, c)
        invariant forall c :: RankOf(rank, c) >= RankOf(rank, chemical) ==>
          Get(produced, c) == Get(old(produced), c) && Get(consumed, c) == Get(old(consumed), c)
      {
        var sub, amount := needs[i].0, needs[i].1;
        ok := Supply(sub, amount, reactions, rank);
        if !ok {
          return false;
        }
      }
      produced := produced[chemical := Get(produced, chemical) + reactions[chemical].quantity];
      return true;
    }

    /**
     * One requirement: `while stock < sub_quantity: produce(sub_chemical,
     * sub_quantity)`, then `consumed[sub_chemical] += sub_quantity`.
     */
    method Supply(sub: string, amount: int, reactions: Reactions, ghost rank: map<string, nat>) returns (ok: bool)
      requires Valid() && Ranked(reactions, rank) && amount > 0
      modifies this
      decreases RankOf(rank, sub), 2
      ensures Valid()
      ensures forall c :: Get(old(produced), c) <= Get(produced, c) && Get(old(consumed), c) <= Get(consumed, c)
      ensures forall c :: c != sub && RankOf(rank, c) >= RankOf(rank, sub) ==>
        Get(produced, c) == Get(old(produced), c) && Get(consumed, c) == Get(old(consumed), c)
      ensures ok ==> Get(consumed, sub) == Get(old(consumed), sub) + amount
      ensures (sub == Ore || sub in reactions) && Closed(reactions) ==> ok
    {
      while Get(produced, sub) - Get(consumed, sub) < amount
        invariant Valid()
        invariant forall c :: Get(old(produced), c) <= Get(produced, c) && Get(old(consumed), c) <= Get(consumed, c)
        invariant forall c :: c != sub && RankOf(rank, c) >= RankOf(rank, sub) ==>
          Get(produced, c) == Get(old(produced), c) && Get(consumed, c) == Get(old(consumed), c)
        invariant Get(consumed, sub) == Get(old(consumed), sub)
        decreases amount - (Get(produced, sub) - Get(consumed, sub))
      {
        ok := Produce(sub, amount, reactions, rank);
        if !ok {
          return false;
        }
      }
      // the stock now covers the requirement, and exactly `amount` is taken from it
      assert Stock(sub) >= amount;
      consumed := consumed[sub := Get(consumed, sub) + amount];
      return true;
    }
  }
}
