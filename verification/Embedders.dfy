/** Which embedder a store's vectors come from, and what an embedder computes.

    An embedder is a parameter of the whole development: a total function from a name
    and a text to a vector whose length the name fixes. Nothing else is known about it. */
module Embedders {
  import opened Optional

  type Vector = seq<real>

  const HASH_DIM: nat := 384
  const ONNX_DIM: nat := 384

  // What a stored vector says about its origin. A remote name has its model and dimension in it.
  datatype Name = OnnxName | HashName | RemoteName(model: string, dim: Option<nat>)

  datatype Spec = Onnx | Hash | Remote(url: string, model: string, dim: Option<nat>) {

    function Name(): Name {
      match this
      case Onnx => OnnxName
      case Hash => HashName
      case Remote(_, model, dim) => RemoteName(model, dim)
    }

    function Dim(): Option<nat> {
      match this
      case Onnx => Some(ONNX_DIM)
      case Hash => Some(HASH_DIM)
      case Remote(_, _, dim) => dim
    }

    // Same model, whatever dimension a probe filled in.
    predicate SameModel(other: Spec) {
      match (this, other)
      case (Remote(url, model, _), Remote(url', model', _)) =>
        TrimSlashes(url) == TrimSlashes(url') && model == model'
      case _ => this == other
    }
  }

  function TrimSlashes(url: string): string {
    if url != "" && url[|url| - 1] == '/' then TrimSlashes(url[..|url| - 1]) else url
  }

  // The vector length a name stands for.
  function DimOf(name: Name): nat {
    match name
    case OnnxName => ONNX_DIM
    case HashName => HASH_DIM
    case RemoteName(_, dim) => dim.GetOr(0)
  }

  type Embedding = (Name, string) -> Vector

  // What is assumed of the models: the name fixes the vector's length.
  ghost predicate Sized(embed: Embedding) {
    forall name, text :: |embed(name, text)| == DimOf(name)
  }
}
