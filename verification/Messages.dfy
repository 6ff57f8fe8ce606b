/** The messages of core/include/oneseismic/messages.hpp that planner, worker and decoder exchange. */
module Messages {
  import opened Cells
  import opened Shapes
  import opened Geometry

  /** What every task says about the fragments it reads. */
  datatype Volume = Volume(attribute: string, shape: Tuple, shapeCube: Tuple) {
    function Gvt(): Gvt {
      Geometry.Gvt(shapeCube, shape)
    }
  }

  datatype SliceTask = SliceTask(volume: Volume, dim: nat, idx: nat, ids: seq<Tuple>)

  /**
   * One fragment of a curtain: its id, the number of the first row it delivers,
   * and the local positions of its traces.
   */
  datatype Single = Single(id: Tuple, offset: nat, coordinates: seq<(nat, nat)>)

  datatype CurtainTask = CurtainTask(volume: Volume, ids: seq<Single>)

  datatype Tile = Tile(
    iterations: int, chunkSize: int, initialSkip: int, superstride: int, substride: int, v: seq<Sample>)

  datatype CurtainBody = CurtainBody(
    size: int, zlength: int, major: seq<int>, minor: seq<int>, values: seq<Sample>)

  datatype FunctionId = SliceFunction | CurtainFunction

  datatype Header = Header(
    kind: FunctionId, nbundles: int, ndims: nat, index: seq<int>, attributes: seq<string>, shapes: seq<int>)

  datatype Option<+T> = None | Some(value: T)

  /**
   * A complete object of the response stream, as the decoder looks at it. A
   * bundle is recognised by its slot count and its attribute name; None is a
   * bundle with any other slot of the wrong type.
   */
  datatype Object =
    | HeaderObject(header: Header)
    | SliceBundle(attribute: string, tiles: Option<seq<Tile>>)
    | CurtainBundle(attribute: string, body: Option<CurtainBody>)
    | OtherObject

  /** The samples of a cube, by point. */
  type Cube = Tuple -> Sample

  /** Stored fragments, by fragment id. */
  type Store = map<Tuple, seq<Sample>>

  /** Every fragment of the grid is stored, and holds the cube's samples outside its padding. */
  ghost predicate Stores(store: Store, g: Gvt, cube: Cube)
    requires g.Valid()
  {
    forall fid | InShape(fid, g.Counts()) :: FragmentStored(store, g, cube, fid)
  }

  ghost predicate FragmentStored(store: Store, g: Gvt, cube: Cube, fid: Tuple)
    requires g.Valid() && |fid| == |g.cube|
  {
    fid in store && |store[fid]| == Prod(g.frag) &&
    forall l | InShape(l, g.RealShape(fid)) :: Offset(l, g.frag) < Prod(g.frag) &&
      store[fid][Offset(l, g.frag)] == cube(g.Global(fid, l))
  }
}
