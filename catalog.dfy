/**
 * Catalog normalisation (`getAllChampions`): every champion descriptor of
 * the catalog, in the catalog's iteration order, becomes a champion with
 * its canonical id and the lowercased slug used in statistics URLs.
 */
module Catalog {
  import opened Text

  /** A champion descriptor of the catalog; the only field read is `id`. */
  datatype ChampionData = ChampionData(id: string)

  /** A champion: its canonical id (display, image URL) and its slug (statistics URLs). */
  datatype Champion = Champion(id: string, slug: string)

  /** `Object.values(catalog).map(champ => ({ id: champ.id, slug: champ.id.toLowerCase() }))`. */
  function AllChampions(catalog: seq<ChampionData>): (champions: seq<Champion>)
    ensures |champions| == |catalog|
    ensures forall i :: 0 <= i < |catalog| ==>
      champions[i].id == catalog[i].id && champions[i].slug == Lower(catalog[i].id)
  {
    if catalog == [] then []
    else [Champion(catalog[0].id, Lower(catalog[0].id))] + AllChampions(catalog[1..])
  }

  /**
   * Every slug is in normal form: it holds no upper-case ASCII letter, and
   * it is what normalising its own id or itself again gives.
   */
  lemma {:induction false} SlugsAreNormal(catalog: seq<ChampionData>)
    ensures forall c :: c in AllChampions(catalog) ==>
      Lower(c.slug) == c.slug && Lower(c.id) == c.slug && forall k :: 0 <= k < |c.slug| ==> !('A' <= c.slug[k] <= 'Z')
  {
    var champions := AllChampions(catalog);
    forall c | c in champions
      ensures Lower(c.slug) == c.slug && Lower(c.id) == c.slug && forall k :: 0 <= k < |c.slug| ==> !('A' <= c.slug[k] <= 'Z')
    {
      var i :| 0 <= i < |champions| && champions[i] == c;
      LowerIsNormal(catalog[i].id);
    }
  }
}
