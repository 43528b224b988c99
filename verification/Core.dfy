// Vocabulary shared by every module.
//
// Go strings are byte sequences; a model string holds one char per byte, so
// string order, lengths and cuts below are the byte-wise ones of the program.
module Core {
  datatype Option<+T> = None | Some(value: T)

  datatype Result<+T, +E> = Ok(value: T) | Err(error: E)

  datatype GVK = GVK(group: string, version: string, kind: string)

  datatype OwnerKey = OwnerKey(kind: string, ns: string, name: string)

  type Labels = map<string, string>

  // What the kstatus library answers for an object. The library is a pure
  // function of the object, so its answer travels with the object.
  datatype KAnswer =
    | KError(message: string)
    | KNil
    | KResult(status: string, message: string, reasons: seq<string>)

  // A Kubernetes object as the operator sees it. `suspend` is spec.suspend
  // when that field is present and a boolean.
  datatype Obj = Obj(gvk: GVK, ns: string, name: string, labels: Labels, suspend: Option<bool>, kstatus: KAnswer)

  predicate NoDuplicates<T(==)>(s: seq<T>) {
    forall i, j :: 0 <= i < j < |s| ==> s[i] != s[j]
  }

  // A Go slice: nil differs from empty under reflect.DeepEqual.
  datatype Slice<+T> = NilSlice | Alloc(items: seq<T>) {
    function Items(): seq<T> { if NilSlice? then [] else items }
  }

  // The slice that is nil when there is nothing in it.
  function NilIfEmpty<T>(s: seq<T>): Slice<T> {
    if |s| == 0 then NilSlice else Alloc(s)
  }
}
