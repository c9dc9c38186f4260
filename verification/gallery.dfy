/** The card gallery and the detail modal of js/scripts.js with the page
    abstracted away: a card is the record of what its markup shows, the
    gallery is the sequence of cards in document order, and a modal is the
    record of the fields its markup fills in. */
module Gallery {
  import opened Wrappers
  import opened Decimal
  import Phone
  import Birthdate

  datatype Name = Name(first: string, last: string)
  datatype Street = Street(number: nat, name: string)
  datatype Location = Location(street: Street, city: string, state: string, postcode: string)
  datatype Picture = Picture(large: string, medium: string, thumbnail: string)
  datatype Dob = Dob(date: string)

  /** One record of the API's `results` array. */
  datatype Person = Person(
    name: Name,
    email: string,
    location: Location,
    phone: string,
    dob: Dob,
    picture: Picture)

  /** The parsed response body, `{ results: [...] }`. */
  datatype Data = Data(results: seq<Person>)

  /** A rendered card: its `position` attribute and the text and image it shows. */
  datatype Card = Card(position: string, image: string, name: string, email: string, location: string)

  /** The content of the modal's info container. */
  datatype Modal = Modal(
    image: string,
    name: string,
    email: string,
    city: string,
    phone: string,
    address: string,
    birthday: string)

  /** `first last`, as both templates print a name. */
  function FullName(name: Name): string
  {
    name.first + " " + name.last
  }

  /** `createPersonHTML(person, index)`: the card for the person at `index`.
      Its position attribute is the decimal text of `index`; it shows the
      large picture, `first last`, the email and `city, state`. */
  function PersonCard(person: Person, index: nat): (card: Card)
    ensures card.position == NatToDecimal(index)
    ensures card.image == person.picture.large
    ensures card.name == person.name.first + " " + person.name.last
    ensures card.email == person.email
    ensures card.location == person.location.city + ", " + person.location.state
  {
    Card(NatToDecimal(index), person.picture.large, FullName(person.name), person.email,
         person.location.city + ", " + person.location.state)
  }

  /** `createHTML(data)`: the cards `data.results.map` produces, in order. */
  function Render(results: seq<Person>): (cards: seq<Card>)
    ensures |cards| == |results|
    ensures forall i :: 0 <= i < |cards| ==> ParseInt(cards[i].position) == Some(i)
    ensures forall i :: 0 <= i < |cards| ==>
      && cards[i].name == results[i].name.first + " " + results[i].name.last
      && cards[i].email == results[i].email
      && cards[i].location == results[i].location.city + ", " + results[i].location.state
      && cards[i].image == results[i].picture.large
  {
    var cards := seq(|results|, i requires 0 <= i < |results| => PersonCard(results[i], i));
    assert forall i :: 0 <= i < |cards| ==> ParseInt(cards[i].position) == Some(i) by {
      forall i | 0 <= i < |cards|
        ensures ParseInt(cards[i].position) == Some(i)
      {
        ParseIntNatRoundTrip(i);
      }
    }
    cards
  }

  /** `document.querySelector('div[position="v"]')` over the gallery: the
      first card in document order whose position attribute is exactly `v`,
      or `None` (`null`) when there is none. */
  function QuerySelect(cards: seq<Card>, v: string): (r: Option<nat>)
    ensures r.Some? ==> r.value < |cards| && cards[r.value].position == v
    ensures r.Some? ==> forall j :: 0 <= j < r.value ==> cards[j].position != v
    ensures r.None? ==> forall j :: 0 <= j < |cards| ==> cards[j].position != v
  {
    if |cards| == 0 then None
    else if cards[0].position == v then Some(0)
    else match QuerySelect(cards[1..], v)
      case None => None
      case Some(k) => Some(k + 1)
  }

  /** `personArray.results[position]`: an array read with a number key, which
      is `undefined` for `NaN`, negative and too large positions. */
  function Lookup(results: seq<Person>, position: Option<int>): (r: Option<Person>)
    ensures r.Some? <==> position.Some? && 0 <= position.value < |results|
    ensures r.Some? ==> r.value == results[position.value]
  {
    match position
    case Some(i) => if 0 <= i < |results| then Some(results[i]) else None
    case None => None
  }

  /** The street line of the modal: `number street city, state postcode`. */
  function AddressLine(location: Location): string
  {
    NatToDecimal(location.street.number) + " " + location.street.name + " "
      + location.city + ", " + location.state + " " + location.postcode
  }

  /** `createModalHTML(person)`. `hostDate` stands for `new Date(dob)` and the
      host's calendar getters, which the model does not reproduce. */
  function PersonModal(person: Person, hostDate: string -> Birthdate.CalendarDate): (modal: Modal)
    ensures modal.image == person.picture.medium
    ensures modal.name == person.name.first + " " + person.name.last
    ensures modal.email == person.email
    ensures modal.city == person.location.city
    ensures modal.phone == Phone.FormatPhone(person.phone)
    ensures modal.address == NatToDecimal(person.location.street.number) + " " + person.location.street.name
      + " " + person.location.city + ", " + person.location.state + " " + person.location.postcode
    ensures ParseInt(modal.address) == Some(person.location.street.number)
    ensures modal.birthday == Birthdate.FormatBirthdate(hostDate(person.dob.date))
    ensures hostDate(person.dob.date).LocalDate? ==>
      ParseInt(modal.birthday) == Some(hostDate(person.dob.date).month + 1)
  {
    var location := person.location;
    var tail := " " + location.street.name + " " + location.city + ", " + location.state + " " + location.postcode;
    assert AddressLine(location) == NatToDecimal(location.street.number) + tail;
    ParseIntNatThen(location.street.number, tail);
    Modal(person.picture.medium, FullName(person.name), person.email, person.location.city,
          Phone.FormatPhone(person.phone), AddressLine(person.location),
          Birthdate.FormatBirthdate(hostDate(person.dob.date)))
  }

  /** `showModal` for a click on `card`: parse its position attribute, read
      that entry of the stored results, and build the modal. `None` is the
      click whose lookup yields `undefined`, where building the modal throws
      and nothing is shown. */
  function ShowModal(results: seq<Person>, card: Card, hostDate: string -> Birthdate.CalendarDate): (r: Option<Modal>)
    ensures r.Some? <==> Lookup(results, ParseInt(card.position)).Some?
    ensures r.Some? ==> exists i :: 0 <= i < |results| && ParseInt(card.position) == Some(i)
                                    && r.value == PersonModal(results[i], hostDate)
  {
    match Lookup(results, ParseInt(card.position))
    case Some(person) => Some(PersonModal(person, hostDate))
    case None => None
  }

  /** Card positions are pairwise distinct, so no two cards can be confused. */
  lemma PositionsDistinct(results: seq<Person>, i: nat, j: nat)
    requires i < |results| && j < |results| && i != j
    ensures Render(results)[i].position != Render(results)[j].position
  {
    var cards := Render(results);
    assert ParseInt(cards[i].position) == Some(i);
    assert ParseInt(cards[j].position) == Some(j);
  }

  /** The selector built at js/scripts.js:91 for index `i` finds card `i` and
      no other card of the gallery. */
  lemma SelectorFindsCard(results: seq<Person>, i: nat)
    requires i < |results|
    ensures QuerySelect(Render(results), NatToDecimal(i)) == Some(i)
    ensures forall j :: 0 <= j < |results| ==> (Render(results)[j].position == NatToDecimal(i) <==> j == i)
  {
    var cards := Render(results);
    forall j | 0 <= j < |results|
      ensures cards[j].position == NatToDecimal(i) <==> j == i
    {
      if j != i {
        PositionsDistinct(results, i, j);
      }
    }
  }

  /** Clicking card `i` of the rendered gallery opens the modal of the very
      person that card was built from. */
  lemma ClickShowsCardPerson(results: seq<Person>, i: nat, hostDate: string -> Birthdate.CalendarDate)
    requires i < |results|
    ensures ShowModal(results, Render(results)[i], hostDate) == Some(PersonModal(results[i], hostDate))
    ensures ShowModal(results, Render(results)[i], hostDate).value.name == Render(results)[i].name
    ensures ShowModal(results, Render(results)[i], hostDate).value.email == Render(results)[i].email
  {
    assert ParseInt(Render(results)[i].position) == Some(i);
  }

  /** Models `createHTML` step by step as the page runs it: for each person in
      order the card is appended to the end of the gallery, then the selector
      for its index is queried and the click listener attached to the card it
      finds. `listeners[i]` is the index of the card that received the i-th
      listener. */
  method CreateHtml(data: Data) returns (gallery: seq<Card>, listeners: seq<nat>)
    ensures gallery == Render(data.results)
    ensures |listeners| == |data.results|
    ensures forall i :: 0 <= i < |listeners| ==> listeners[i] == i
  {
    var results := data.results;
    gallery := [];
    listeners := [];
    var i := 0;
    while i < |results|
      invariant 0 <= i <= |results|
      invariant |gallery| == i && |listeners| == i
      invariant forall k :: 0 <= k < i ==> gallery[k] == PersonCard(results[k], k)
      invariant forall k :: 0 <= k < i ==> listeners[k] == k
    {
      var card := PersonCard(results[i], i);
      gallery := gallery + [card];
      SelectorFindsNewest(gallery, i);
      var selected := QuerySelect(gallery, NatToDecimal(i));
      listeners := listeners + [selected.value];
      i := i + 1;
    }
    RenderByCards(results, gallery);
  }

  /** While the gallery holds the cards of indices 0 to `i` in order, the
      selector for `i` finds the card just appended. */
  lemma SelectorFindsNewest(cards: seq<Card>, i: nat)
    requires |cards| == i + 1
    requires forall k :: 0 <= k <= i ==> cards[k].position == NatToDecimal(k)
    ensures QuerySelect(cards, NatToDecimal(i)) == Some(i)
  {
    forall k | 0 <= k < i
      ensures cards[k].position != NatToDecimal(i)
    {
      NatToDecimalInjective(k, i);
    }
  }

  /** A gallery whose every card is the card of the same index is `Render`'s. */
  lemma RenderByCards(results: seq<Person>, cards: seq<Card>)
    requires |cards| == |results|
    requires forall k :: 0 <= k < |cards| ==> cards[k] == PersonCard(results[k], k)
    ensures cards == Render(results)
  {
  }
}
