/** Asset creation (`createAsset`): a downloadable file of a product. A
    product holds one asset per file name, version and storage location;
    the clearance does not take part in that key. */
module AssetRules {
  import opened Entities
  import opened Tables

  const ProductMissing := Error(UserInputError, "product does not exist")
  const AssetExists := Error(ApolloError, "asset already exists")

  datatype AssetInput = AssetInput(
    productId: Id,
    fileName: string,
    version: string,
    clearance: AssetClearance,
    location: AssetLocation)

  /** The existence lookup: product, file name, version and location, not clearance. */
  function SameFile(productId: Id, fileName: string, version: string, location: AssetLocation): Asset -> bool {
    (a: Asset) => a.productId == productId && a.fileName == fileName && a.version == version && a.location == location
  }

  /** What `createAsset` returns. */
  function AddAsset(products: seq<Product>, assets: seq<Asset>, data: AssetInput, newId: Id): Result<Asset> {
    match FindFirst(products, ProductWithId(data.productId))
    case None => Failure(ProductMissing)
    case Some(product) =>
      if Count(assets, SameFile(product.id, data.fileName, data.version, data.location)) != 0 then Failure(AssetExists)
      else Success(Asset(newId, product.id, data.fileName, data.version, data.clearance, data.location))
  }

  /** Store invariant: no two assets share product, file name, version and location. */
  predicate AssetKeysUnique(assets: seq<Asset>) {
    forall i, j :: 0 <= i < j < |assets| ==>
      !SameFile(assets[i].productId, assets[i].fileName, assets[i].version, assets[i].location)(assets[j])
  }

  /** The call fails for an unknown product, fails for a taken key whatever
      the clearance, and otherwise stores exactly the input fields. */
  lemma AddAssetOutcome(products: seq<Product>, assets: seq<Asset>, data: AssetInput, newId: Id)
    ensures var r := AddAsset(products, assets, data, newId);
      var known := exists p :: p in products && p.id == data.productId;
      var taken := exists a :: a in assets && SameFile(data.productId, data.fileName, data.version, data.location)(a);
      && (r == Failure(ProductMissing) <==> !known)
      && (r == Failure(AssetExists) <==> known && taken)
      && (r.Success? <==> known && !taken)
      && (r.Success? ==> r.value == Asset(newId, data.productId, data.fileName, data.version, data.clearance, data.location))
  {
    var f := SameFile(data.productId, data.fileName, data.version, data.location);
    if exists p :: p in products && p.id == data.productId {
      var p :| p in products && p.id == data.productId;
      assert ProductWithId(data.productId)(p);
    }
    var found := FindFirst(products, ProductWithId(data.productId));
    if found.Some? {
      assert found.value.id == data.productId;
      var w := Where(assets, f);
      if w != [] {
        assert w[0] in w;
      }
      if exists a :: a in assets && f(a) {
        var a :| a in assets && f(a);
        assert a in w;
      }
    }
  }

  /** Storing a new asset keeps the asset key unique. */
  lemma {:induction false} AddAssetKeepsUnique(products: seq<Product>, assets: seq<Asset>, data: AssetInput, newId: Id)
    requires AssetKeysUnique(assets)
    requires AddAsset(products, assets, data, newId).Success?
    ensures AssetKeysUnique(assets + [AddAsset(products, assets, data, newId).value])
  {
    var rec := AddAsset(products, assets, data, newId).value;
    var s := assets + [rec];
    var f := SameFile(rec.productId, rec.fileName, rec.version, rec.location);
    assert Where(assets, f) == [];
    forall i, j | 0 <= i < j < |s|
      ensures !SameFile(s[i].productId, s[i].fileName, s[i].version, s[i].location)(s[j])
    {
      if j == |assets| {
        assert s[i] == assets[i] && s[i] in assets && !f(s[i]);
      } else {
        assert s[i] == assets[i] && s[j] == assets[j];
      }
    }
  }

  /** Once an asset is stored, the same product, file, version and location
      is refused again, even under another clearance. */
  lemma RepeatAssetFails(products: seq<Product>, assets: seq<Asset>, data: AssetInput, newId: Id, clearance: AssetClearance, otherId: Id)
    requires AddAsset(products, assets, data, newId).Success?
    ensures AddAsset(products, assets + [AddAsset(products, assets, data, newId).value], data.(clearance := clearance), otherId)
         == Failure(AssetExists)
  {
    var rec := AddAsset(products, assets, data, newId).value;
    CountAppend(assets, rec, SameFile(data.productId, data.fileName, data.version, data.location));
  }
}

/** `createAsset` over the store. */
module AssetResolver {
  import opened Entities
  import opened Tables
  import opened AssetRules
  import opened Store

  /** Adds an asset to a product. A failed call stores nothing; a successful
      one appends exactly the new asset. `newId` is the key the database generates. */
  method CreateAsset(db: Database, data: AssetInput, newId: Id) returns (r: Result<Asset>)
    requires db.Valid() && KeyFree(db.assets, AssetKey, newId)
    modifies db`assets
    ensures db.Valid()
    ensures r == AddAsset(db.products, old(db.assets), data, newId)
    ensures db.assets == if r.Success? then old(db.assets) + [r.value] else old(db.assets)
  {
    var product := FindFirst(db.products, ProductWithId(data.productId));
    if product.None? {
      return Failure(ProductMissing);
    }
    var existing := Count(db.assets, SameFile(product.value.id, data.fileName, data.version, data.location));
    if existing != 0 {
      return Failure(AssetExists);
    }
    var rec := Asset(newId, product.value.id, data.fileName, data.version, data.clearance, data.location);
    AddAssetKeepsUnique(db.products, db.assets, data, newId);
    AppendKeepsWellKeyed(db.assets, rec, AssetKey);
    db.assets := db.assets + [rec];
    r := Success(rec);
  }
}
