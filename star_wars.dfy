/** The records the app reads from the Star Wars API and creates locally. */
module StarWars {

  /**
   * A character. Scalar attributes are the API's strings as they arrive;
   * the four relation lists hold resource URLs in their original order.
   */
  datatype Person = Person(
    name: string,
    height: string,
    mass: string,
    hairColor: string,
    skinColor: string,
    eyeColor: string,
    birthYear: string,
    gender: string,
    homeworld: string,
    films: seq<string>,
    species: seq<string>,
    vehicles: seq<string>,
    starships: seq<string>,
    created: string,
    edited: string,
    url: string)

  /** The three attributes of a film the detail screen shows. */
  datatype Film = Film(title: string, releaseDate: string, url: string)
}
