/** Channel selection: which of the Hall and Pedersen conductances a call
    computes, how the selector string is validated, and how the one or two
    computed arrays are returned.
 */
module Channels {
  import opened Results
  import opened Text

  datatype Channel = Hall | Pedersen | HallAndPedersen

  /** The one or two conductance arrays a call returns: a single array for
      one channel, a (Hall, Pedersen) pair for both. */
  datatype Conductance = Single(values: seq<real>) | Pair(hall: seq<real>, pedersen: seq<real>)

  /** The canonical selector of a channel, as `hardy_EUV` passes it on. */
  function Token(c: Channel): string {
    match c
    case Hall => "h"
    case Pedersen => "p"
    case HallAndPedersen => "hp"
  }

  /** Selectors accepted by `EUV_conductance` and `hardy` (after lower-casing). */
  const EvaluatorTokens: set<string> := {"h", "p", "hp"}

  /** Selectors accepted by `hardy_EUV` (after lower-casing). */
  const CombinerTokens: set<string> := {"hall", "h", "pedersen", "p", "hp", "hallandpedersen"}

  /** The selector check of `EUV_conductance` and `hardy`: case-insensitive,
      exactly `h`, `p` or `hp`, anything else a hard failure. */
  function ParseChannel(token: string): (r: Result<Channel>)
    ensures r.Ok? <==> Lower(token) in EvaluatorTokens
    ensures r.Err? ==> r.error == InvalidChannel
    ensures r.Ok? ==> Token(r.value) == Lower(token)
  {
    var l := Lower(token);
    if l == "h" then Ok(Hall)
    else if l == "p" then Ok(Pedersen)
    else if l == "hp" then Ok(HallAndPedersen)
    else Err(InvalidChannel)
  }

  /** Every canonical selector is accepted and names its own channel; with the
      contract of `ParseChannel` this makes `Token` and `ParseChannel` inverse. */
  lemma ParseToken(c: Channel)
    ensures ParseChannel(Token(c)) == Ok(c)
  {
    assert Lower(Token(c)) == Token(c);
  }

  /** `getH = 'h' in hallOrPed.lower()`: the Hall array is computed for every
      selector but Pedersen alone. */
  function WantsHall(c: Channel): (b: bool)
    ensures b <==> c != Pedersen
  {
    'h' in Token(c)
  }

  /** `getP = 'p' in hallOrPed.lower()`: the Pedersen array is computed for
      every selector but Hall alone. */
  function WantsPedersen(c: Channel): (b: bool)
    ensures b <==> c != Hall
  {
    'p' in Token(c)
  }

  /** Every array of `c` has `n` values. */
  predicate Shaped(c: Conductance, n: nat) {
    match c
    case Single(v) => |v| == n
    case Pair(h, p) => |h| == n && |p| == n
  }

  /** Every value of every array of `c` is at least zero. */
  predicate NonNegative(c: Conductance) {
    match c
    case Single(v) => forall i :: 0 <= i < |v| ==> v[i] >= 0.0
    case Pair(h, p) => (forall i :: 0 <= i < |h| ==> h[i] >= 0.0) && (forall i :: 0 <= i < |p| ==> p[i] >= 0.0)
  }

  /** The array of one channel: the only array of a single result, or the
      Hall (`hall` true) or Pedersen half of a pair. */
  function Component(c: Conductance, hall: bool): seq<real> {
    match c
    case Single(v) => v
    case Pair(h, p) => if hall then h else p
  }

  /** The return statement of both evaluators: the Hall array, the Pedersen
      array, or both in (Hall, Pedersen) order. */
  function Dispatch(c: Channel, hall: seq<real>, pedersen: seq<real>): (r: Conductance)
    ensures r.Pair? <==> c == HallAndPedersen
    ensures WantsHall(c) ==> Component(r, true) == hall
    ensures WantsPedersen(c) ==> Component(r, false) == pedersen
  {
    match c
    case Hall => Single(hall)
    case Pedersen => Single(pedersen)
    case HallAndPedersen => Pair(hall, pedersen)
  }

  /** Lines 69-74 of `hardy_EUV`: three independent tests, a later one
      overriding an earlier one, that set the normalised selector `hop`.
      Two of them are substring tests, so on their own they would also
      accept strings such as `"al"` or `"ped"`; `None` means no test
      fired and `hop` stays unbound. */
  function HopTests(l: string): (r: Option<Channel>)
    ensures r.None? <==> BranchesTaken(l) == 0
    ensures r == Some(HallAndPedersen) <==> l in ["hp", "hallandpedersen"]
    ensures r == Some(Hall) ==> IsSubstring(l, "hall") && !IsSubstring(l, "pedersen")
  {
    var afterHall := if IsSubstring(l, "hall") then Some(Hall) else None;
    var afterPedersen := if IsSubstring(l, "pedersen") then Some(Pedersen) else afterHall;
    if l in ["hp", "hallandpedersen"] then Some(HallAndPedersen) else afterPedersen
  }

  /** How many of the three tests of `HopTests` fire on `l`. */
  function BranchesTaken(l: string): nat {
    (if IsSubstring(l, "hall") then 1 else 0)
    + (if IsSubstring(l, "pedersen") then 1 else 0)
    + (if l in ["hp", "hallandpedersen"] then 1 else 0)
  }

  /** On the six accepted selectors exactly one of the three tests fires,
      and it maps `h`/`hall` to Hall, `p`/`pedersen` to Pedersen and
      `hp`/`hallandpedersen` to both. */
  lemma HopTestsOnAcceptedTokens(l: string)
    requires l in CombinerTokens
    ensures BranchesTaken(l) == 1
    ensures HopTests(l) == Some(Hall) <==> l in {"h", "hall"}
    ensures HopTests(l) == Some(Pedersen) <==> l in {"p", "pedersen"}
    ensures HopTests(l) == Some(HallAndPedersen) <==> l in {"hp", "hallandpedersen"}
  {
    if l == "h" || l == "hall" {
      assert IsPrefix(l, "hall");
      MissingCharNotSubstring(l, "pedersen", 'h');
    } else if l == "p" || l == "pedersen" {
      assert IsPrefix(l, "pedersen");
      MissingCharNotSubstring(l, "hall", 'p');
    } else {
      assert l == "hp" || l == "hallandpedersen";
      MissingCharNotSubstring(l, "hall", 'p');
      MissingCharNotSubstring(l, "pedersen", 'h');
    }
  }

  /** The substring tests alone are loose: `"al"` would be taken for Hall.
      Only the membership check that precedes them keeps such strings out. */
  lemma LooseTestAcceptsFragment()
    ensures HopTests("al") == Some(Hall)
    ensures "al" !in CombinerTokens
  {
    assert OccursAt("al", "hall", 1);
    IsSubstringOccurs("al", "hall");
    MissingCharNotSubstring("al", "pedersen", 'a');
  }

  /** Selector validation and normalisation of `hardy_EUV`: the lower-cased
      selector must be one of the six accepted tokens, and is then normalised
      by the tests of lines 69-74 to the canonical channel. */
  function NormaliseHop(token: string): (r: Result<Channel>)
    ensures r.Ok? <==> Lower(token) in CombinerTokens
    ensures r.Err? ==> r.error == InvalidChannel
    ensures r.Ok? ==> (r.value == Hall <==> Lower(token) in {"h", "hall"})
    ensures r.Ok? ==> (r.value == Pedersen <==> Lower(token) in {"p", "pedersen"})
    ensures r.Ok? ==> (r.value == HallAndPedersen <==> Lower(token) in {"hp", "hallandpedersen"})
  {
    var l := Lower(token);
    if l !in CombinerTokens then Err(InvalidChannel)
    else
      HopTestsOnAcceptedTokens(l);
      match HopTests(l)
      case Some(c) => Ok(c)
      case None => Err(InvalidChannel)
  }

  /** The canonical selector of a channel normalises to that channel. */
  lemma NormaliseToken(c: Channel)
    ensures NormaliseHop(Token(c)) == Ok(c)
  {
    assert Lower(Token(c)) == Token(c);
  }
}
