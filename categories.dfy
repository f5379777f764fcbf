/** The three photo groupings of the album and the `{ juron, biya, reception }`
    records the site keeps one value per grouping in. */
module Categories {

  datatype Category = Juron | Biya | Reception

  /** The folder name and query value of a category. */
  function Name(c: Category): string {
    match c
    case Juron => "juron"
    case Biya => "biya"
    case Reception => "reception"
  }

  lemma NamesDistinct(c: Category, d: Category)
    requires Name(c) == Name(d)
    ensures c == d
  {
  }

  /** A record with exactly the keys juron, biya and reception. */
  datatype ByCategory<T> = ByCategory(juron: T, biya: T, reception: T) {

    function Get(c: Category): T {
      match c
      case Juron => juron
      case Biya => biya
      case Reception => reception
    }

    /** `{ ...prev, [c]: v }`: `c` gets `v`, every other key keeps its value. */
    function With(c: Category, v: T): (r: ByCategory<T>)
      ensures r.Get(c) == v
      ensures forall d :: d != c ==> r.Get(d) == Get(d)
    {
      match c
      case Juron => this.(juron := v)
      case Biya => this.(biya := v)
      case Reception => this.(reception := v)
    }
  }

  /** The same value under every key. */
  function Uniform<T>(v: T): (r: ByCategory<T>)
    ensures forall c :: r.Get(c) == v
  {
    ByCategory(v, v, v)
  }
}
