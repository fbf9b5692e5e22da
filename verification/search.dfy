/** The bus search box (app.js:715-728): on every keystroke each list row is
    shown or hidden by a substring test on its heading and its id. */
module Search {
  import opened Wrappers
  import opened Text
  import opened Buses

  /** A row stays visible when its lower-cased heading contains the
      lower-cased term, or when its id, as it is, contains the lower-cased
      term. */
  predicate Visible(id: string, heading: string, input: string) {
    var term := Lower(input);
    Contains(Lower(heading), term) || Contains(id, term)
  }

  /** The `input` handler: which rows of the list stay shown. */
  method FilterBusList(rows: map<string, Row>, input: string) returns (shown: set<string>)
    ensures shown <= rows.Keys
    ensures forall id :: id in rows ==> (id in shown <==> Visible(id, rows[id].name, input))
    ensures input == "" ==> shown == rows.Keys
  {
    var term := Lower(input);
    var rest := rows.Keys;
    shown := {};
    while rest != {}
      invariant rest <= rows.Keys
      invariant shown <= rows.Keys - rest
      invariant forall id :: id in rows && id !in rest ==> (id in shown <==> Visible(id, rows[id].name, input))
      decreases rest
    {
      var id :| id in rest;
      var byName := Includes(Lower(rows[id].name), term);
      var byId := Includes(id, term);
      if byName || byId {
        shown := shown + {id};
      }
      rest := rest - {id};
    }
    if input == "" {
      forall id | id in rows
        ensures id in shown
      {
        EmptySearchShowsAll(id, rows[id].name);
      }
    }
  }

  /** An empty search box shows every row. */
  lemma EmptySearchShowsAll(id: string, heading: string)
    ensures Visible(id, heading, "")
  {
    ContainsEmpty(Lower(heading));
  }

  /** Only the lower-cased term matters: a term and its lower-cased form
      show the same rows. */
  lemma SearchIgnoresTermCase(id: string, heading: string, input: string)
    ensures Visible(id, heading, input) <==> Visible(id, heading, Lower(input))
  {
    LowerIdempotent(input);
  }

  /** Typing more never brings a row back: if a row is visible for a term,
      it is visible for every piece of that term. */
  lemma {:induction false} NarrowingNeverReveals(id: string, heading: string, input: string, piece: string)
    requires Contains(input, piece)
    requires Visible(id, heading, input)
    ensures Visible(id, heading, piece)
  {
    LowerKeepsContains(input, piece);
    if Contains(Lower(heading), Lower(input)) {
      ContainsTransitive(Lower(heading), Lower(input), Lower(piece));
    } else {
      ContainsTransitive(id, Lower(input), Lower(piece));
    }
  }

  /** Searching for a row's own heading, in any case, finds it. */
  lemma OwnHeadingFinds(id: string, heading: string)
    ensures Visible(id, heading, heading)
  {
    ContainsSelf(Lower(heading));
  }

  /** A bus without a name is headed "Bus <id>", so searching for its id, in
      any case, always finds it. */
  lemma UnnamedBusFoundById(id: string, b: Bus)
    requires !Truthy(b.name)
    ensures Visible(id, DisplayName(id, b), id)
  {
    assert DisplayName(id, b) == "Bus " + id;
    LowerAppend("Bus ", id);
    ContainsSuffix(Lower("Bus "), Lower(id));
  }

  /** An id with no capital letters is found by searching for it. */
  lemma LowerCaseIdFinds(id: string, heading: string)
    requires Lower(id) == id
    ensures Visible(id, heading, id)
  {
    ContainsSelf(id);
  }

  /** A string that contains its own lower-cased form has no capital
      letters: the two have the same length, so the occurrence must be the
      whole string. */
  lemma {:induction false} ContainsOwnLower(id: string)
    requires Contains(id, Lower(id))
    ensures Lower(id) == id
  {
    var i :| 0 <= i <= |id| && Lower(id) <= id[i..];
    assert i == 0;
  }

  /** The id is compared without lower-casing it, so an id with a capital
      letter never matches by itself: typing it finds the bus exactly when
      the bus's heading contains it, case-insensitively. */
  lemma CapitalIdNeedsHeading(id: string, heading: string)
    requires Lower(id) != id
    ensures Visible(id, heading, id) <==> Contains(Lower(heading), Lower(id))
  {
    if Contains(id, Lower(id)) {
      ContainsOwnLower(id);
    }
  }

  /** An instance of the above: bus "B7" named "Loop" is hidden when the box
      holds "B7". */
  lemma CapitalIdMissed()
    ensures !Visible("B7", "Loop", "B7")
  {
    assert Lower("B7") == "b7";
    assert Lower("Loop") == "loop";
    forall i | 0 <= i <= |"loop"|
      ensures !("b7" <= "loop"[i..])
    {
    }
    forall i | 0 <= i <= |"B7"|
      ensures !("b7" <= "B7"[i..])
    {
    }
  }
}
