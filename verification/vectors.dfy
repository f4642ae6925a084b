/** Three-component vectors over the reals, standing in for glm::vec3.
    Floats are idealised as reals throughout the model. */
module Vectors {

  datatype Vec3 = Vec3(x: real, y: real, z: real) {

    /** Component-wise sum (glm's `+` / `+=`). */
    function Plus(o: Vec3): Vec3 {
      Vec3(x + o.x, y + o.y, z + o.z)
    }

    /** Component-wise difference (glm's `-` / `-=`). */
    function Minus(o: Vec3): Vec3 {
      Vec3(x - o.x, y - o.y, z - o.z)
    }

    /** Multiplication by a scalar (glm's `v * k` and `k * v`). */
    function Times(k: real): Vec3 {
      Vec3(x * k, y * k, z * k)
    }
  }
}
