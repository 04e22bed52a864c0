/**
 * Which type declaration of a compilation unit counts as its public class:
 * the first class or interface, in source order, whose modifiers include
 * `public`. Enums and annotation types are passed over even when public,
 * and a second public class is never looked at.
 */
module TypeSelection {
  import opened JavaAst

  predicate IsPublicClass(t: TypeDecl) {
    t.ClassOrInterfaceDeclaration? && Public in t.decl.modifiers
  }

  /** `types[i]` is a public class and no declaration before it is one. */
  predicate FirstPublicAt(types: seq<TypeDecl>, i: int) {
    0 <= i < |types| && IsPublicClass(types[i]) && forall j :: 0 <= j < i ==> !IsPublicClass(types[j])
  }

  function PublicClass(types: seq<TypeDecl>): Option<ClassDecl> {
    if types == [] then None
    else if IsPublicClass(types[0]) then Some(types[0].decl)
    else PublicClass(types[1..])
  }

  /** The selected class is the first public class; there is none exactly when no declaration is a public class. */
  lemma {:induction false} PublicClassIsFirst(types: seq<TypeDecl>)
    ensures PublicClass(types).None? <==> forall i :: 0 <= i < |types| ==> !IsPublicClass(types[i])
    ensures PublicClass(types).Some? ==>
      exists i :: FirstPublicAt(types, i) && types[i].decl == PublicClass(types).value
  {
    if types != [] && !IsPublicClass(types[0]) {
      var rest := types[1..];
      PublicClassIsFirst(rest);
      if PublicClass(rest).Some? {
        var i :| FirstPublicAt(rest, i) && rest[i].decl == PublicClass(rest).value;
        assert FirstPublicAt(types, i + 1) by {
          forall j | 0 <= j < i + 1 ensures !IsPublicClass(types[j]) {
            if j > 0 {
              assert types[j] == rest[j - 1];
            }
          }
        }
      } else {
        forall i | 0 <= i < |types| ensures !IsPublicClass(types[i]) {
          if i > 0 {
            assert types[i] == rest[i - 1];
          }
        }
      }
    } else if types != [] {
      assert FirstPublicAt(types, 0);
    }
  }

  /** At most one position is the first public class. */
  lemma FirstPublicAtUnique(types: seq<TypeDecl>, i: int, j: int)
    requires FirstPublicAt(types, i) && FirstPublicAt(types, j)
    ensures i == j
  {
  }

  /** Wherever the first public class sits, it is the one selected. */
  lemma PublicClassAtFirst(types: seq<TypeDecl>)
    ensures forall i :: FirstPublicAt(types, i) ==> PublicClass(types) == Some(types[i].decl)
  {
    forall i | FirstPublicAt(types, i)
      ensures PublicClass(types) == Some(types[i].decl)
    {
      PublicClassIsFirst(types);
      assert !(forall k :: 0 <= k < |types| ==> !IsPublicClass(types[k]));
      var j :| FirstPublicAt(types, j) && types[j].decl == PublicClass(types).value;
      FirstPublicAtUnique(types, i, j);
    }
  }
}
