/**
  A way to pass large predicates on without opening them. A predicate written
  forall x :: Open(x) ==> body holds exactly when its body does, but the body
  comes into play only where some Open(x) is mentioned.
 */
module Unfolding {

  ghost predicate Open(x: int) {
    true
  }
}
